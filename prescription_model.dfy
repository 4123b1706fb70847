/** The Prescription record. */
module PrescriptionModel {
  import opened Common

  datatype Prescription = Prescription(
    patientId: Id,
    doctorId: Id,
    appointmentId: Id,
    medications: seq<string>,
    notes: string,
    prescriptionFileUrl: string,
    issuedAt: Option<int>)  // declared by the schema; no handler ever sets it

  function IssuedAtKey(p: Prescription): Option<int> {
    p.issuedAt
  }
}
