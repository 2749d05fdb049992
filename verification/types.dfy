/** The records of `src/types/index.ts`. Ratings are integer tenths of a star
    (4.9 is 49) and fees whole currency units, so comparisons are exact. */
module Types {
  import opened Common

  /** A doctor's weekly availability: day labels in their insertion order,
      each with its ordered time labels. */
  type Availability = seq<(string, seq<string>)>

  datatype Doctor = Doctor(
    id: string,
    name: string,
    specialty: string,
    rating: int,
    reviewCount: nat,
    consultationFee: int,
    availability: Availability,
    address: string,
    city: string,
    country: string,
    acceptsInsurance: bool)

  datatype AppointmentType = InPerson | Video | Phone

  datatype AppointmentStatus = Upcoming | Completed | Cancelled

  datatype Appointment = Appointment(
    id: string,
    doctorId: string,
    date: string,
    time: string,
    kind: AppointmentType,
    status: AppointmentStatus,
    symptoms: Option<string>,
    notes: Option<string>)

  datatype BloodType = APos | ANeg | BPos | BNeg | ABPos | ABNeg | OPos | ONeg

  datatype Gender = Male | Female | Other

  datatype EmergencyContact = EmergencyContact(name: string, relationship: string, phone: string)

  datatype Address = Address(street: string, city: string, state: string, postalCode: string, country: string)

  datatype UserProfile = UserProfile(
    fullName: string,
    dateOfBirth: string,
    gender: Gender,
    bloodType: Option<BloodType>,
    allergies: Option<seq<string>>,
    chronicConditions: Option<seq<string>>,
    medications: Option<seq<string>>,
    emergencyContact: Option<EmergencyContact>,
    address: Option<Address>)
}
