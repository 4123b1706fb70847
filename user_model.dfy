/** The User record (patients and admins share one collection). */
module UserModel {
  import opened Common

  datatype User = User(
    firstName: string,
    lastName: string,
    email: string,
    password: string,  // as supplied; hashing is outside the model
    phone: string,
    gender: string,
    age: string,
    role: string)      // "Patient" or "Admin"

  /** The user as returned with select("-password"). */
  datatype PublicUser = PublicUser(
    firstName: string,
    lastName: string,
    email: string,
    phone: string,
    gender: string,
    age: string,
    role: string)

  function WithoutPassword(u: User): (p: PublicUser)
    ensures p.email == u.email && p.role == u.role
    ensures p.firstName == u.firstName && p.lastName == u.lastName
    ensures p.phone == u.phone && p.gender == u.gender && p.age == u.age
  {
    PublicUser(u.firstName, u.lastName, u.email, u.phone, u.gender, u.age, u.role)
  }
}
