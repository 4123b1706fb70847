/** The Doctor record and its schema defaults. */
module DoctorModel {
  import opened Common

  datatype Doctor = Doctor(
    firstName: string,
    lastName: string,
    email: string,
    password: string,  // as supplied; hashing is outside the model
    phone: string,
    gender: string,
    specialization: string,
    department: string,
    experience: string,
    profileImage: string,
    isVerified: bool,
    role: string)

  /** The doctor as returned with select("-password"). */
  datatype PublicDoctor = PublicDoctor(
    firstName: string,
    lastName: string,
    email: string,
    phone: string,
    gender: string,
    specialization: string,
    department: string,
    experience: string,
    profileImage: string,
    isVerified: bool,
    role: string)

  function WithoutPassword(d: Doctor): (p: PublicDoctor)
    ensures p.email == d.email && p.isVerified == d.isVerified && p.role == d.role
    ensures p.firstName == d.firstName && p.lastName == d.lastName
    ensures p.phone == d.phone && p.gender == d.gender
    ensures p.specialization == d.specialization && p.department == d.department
    ensures p.experience == d.experience && p.profileImage == d.profileImage
  {
    PublicDoctor(d.firstName, d.lastName, d.email, d.phone, d.gender, d.specialization,
                 d.department, d.experience, d.profileImage, d.isVerified, d.role)
  }
}
