/** The appointments page: the doctor list narrowed by a search term and a
    specialty, the user's own appointments, and the three-step booking flow
    (date, time, review) that ends in a new appointment record. The
    appointments collection is a sequence of records. */
module Appointments {
  import opened Wrappers
  import Text
  import Seqs

  /** A doctor; `specialty` may be missing from the document. */
  datatype Doctor = Doctor(id: string, name: string, specialty: Option<string>)

  /** An appointment record. `createdAt` is the time of booking. */
  datatype Appointment = Appointment(
    id: string, userId: string, doctorId: string, doctorName: string, specialty: Option<string>,
    date: string, time: string, appointmentType: string, status: string, createdAt: int)

  /** The search test: the lower-cased term occurs in the lower-cased name, or
      in the lower-cased specialty when there is one. */
  predicate MatchesSearch(d: Doctor, searchTerm: string) {
    var term := Text.ToLower(searchTerm);
    Text.Contains(Text.ToLower(d.name), term)
    || (d.specialty.Some? && d.specialty.value != "" && Text.Contains(Text.ToLower(d.specialty.value), term))
  }

  function SearchTest(searchTerm: string): Doctor -> bool {
    (d: Doctor) => MatchesSearch(d, searchTerm)
  }

  function SpecialtyTest(selectedSpecialty: string): Doctor -> bool {
    (d: Doctor) => d.specialty == Some(selectedSpecialty)
  }

  /** A doctor is listed when it passes every filter that is switched on; an
      empty search term or specialty switches its filter off. */
  predicate Listed(d: Doctor, searchTerm: string, selectedSpecialty: string) {
    (searchTerm == "" || MatchesSearch(d, searchTerm))
    && (selectedSpecialty == "" || d.specialty == Some(selectedSpecialty))
  }

  /** The doctor-filter effect: the search filter, then the specialty filter. */
  function FilterDoctors(doctors: seq<Doctor>, searchTerm: string, selectedSpecialty: string): (r: seq<Doctor>)
    ensures |r| <= |doctors|
    ensures forall i :: 0 <= i < |r| ==> r[i] in doctors && Listed(r[i], searchTerm, selectedSpecialty)
    ensures forall i :: 0 <= i < |doctors| && Listed(doctors[i], searchTerm, selectedSpecialty) ==> doctors[i] in r
  {
    var afterSearch := if searchTerm != "" then Seqs.Filter(doctors, SearchTest(searchTerm)) else doctors;
    if selectedSpecialty != "" then Seqs.Filter(afterSearch, SpecialtyTest(selectedSpecialty)) else afterSearch
  }

  function ListedTest(searchTerm: string, selectedSpecialty: string): Doctor -> bool {
    (d: Doctor) => Listed(d, searchTerm, selectedSpecialty)
  }

  /** The two successive filters are one filter by `Listed`, so the list shown
      keeps the doctors' order; with both filters off it is the whole list. */
  lemma FilterDoctorsIsOneFilter(doctors: seq<Doctor>, searchTerm: string, selectedSpecialty: string)
    ensures FilterDoctors(doctors, searchTerm, selectedSpecialty) == Seqs.Filter(doctors, ListedTest(searchTerm, selectedSpecialty))
    ensures Seqs.IsSubsequence(FilterDoctors(doctors, searchTerm, selectedSpecialty), doctors)
    ensures searchTerm == "" && selectedSpecialty == "" ==> FilterDoctors(doctors, searchTerm, selectedSpecialty) == doctors
  {
    var listed := ListedTest(searchTerm, selectedSpecialty);
    if searchTerm != "" && selectedSpecialty != "" {
      Seqs.FilterFilter(doctors, SearchTest(searchTerm), SpecialtyTest(selectedSpecialty), listed);
    } else if searchTerm != "" {
      Seqs.FilterSameTest(doctors, SearchTest(searchTerm), listed);
    } else if selectedSpecialty != "" {
      Seqs.FilterSameTest(doctors, SpecialtyTest(selectedSpecialty), listed);
    } else {
      Seqs.FilterKeepsAll(doctors, listed);
    }
    Seqs.FilterIsSubsequence(doctors, listed);
  }

  function OwnerTest(uid: string): Appointment -> bool {
    (a: Appointment) => a.userId == uid
  }

  /** The appointments shown: those of the signed-in user. */
  function OwnAppointments(all: seq<Appointment>, uid: string): (r: seq<Appointment>)
    ensures forall i :: 0 <= i < |r| ==> r[i] in all && r[i].userId == uid
    ensures forall i :: 0 <= i < |all| && all[i].userId == uid ==> all[i] in r
  {
    Seqs.Filter(all, OwnerTest(uid))
  }

  /** Each appointment of the user is shown as often as it is stored, and no
      other appointment is shown. */
  lemma OwnAppointmentsCounts(all: seq<Appointment>, uid: string, a: Appointment)
    ensures multiset(OwnAppointments(all, uid))[a] == if a.userId == uid then multiset(all)[a] else 0
  {
    Seqs.FilterCounts(all, OwnerTest(uid), a);
  }

  /** A new appointment of the user is added to their appointments; one of
      another user leaves them as they were. */
  lemma OwnAppointmentsAppend(all: seq<Appointment>, a: Appointment, uid: string)
    ensures a.userId == uid ==>
      multiset(OwnAppointments(all + [a], uid)) == multiset(OwnAppointments(all, uid)) + multiset{a}
    ensures a.userId != uid ==>
      multiset(OwnAppointments(all + [a], uid)) == multiset(OwnAppointments(all, uid))
  {
    Seqs.FilterAppend(all, a, OwnerTest(uid));
  }

  /** The record written for a booking. */
  function NewAppointment(id: string, uid: string, doctor: Doctor, date: string, time: string, now: int): (a: Appointment)
    ensures a.userId == uid && a.doctorId == doctor.id && a.doctorName == doctor.name
    ensures a.status == "scheduled" && a.date == date && a.time == time
    ensures doctor.specialty.Some? ==> a.appointmentType == doctor.specialty.value + " Consultation"
  {
    var specialty := if doctor.specialty.Some? then doctor.specialty.value else "undefined";
    Appointment(id, uid, doctor.id, doctor.name, doctor.specialty, date, time, specialty + " Consultation", "scheduled", now)
  }

  /** The booking flow of the page and the appointment collection it writes. */
  class BookingPage {
    var selectedDoctor: Option<Doctor>
    var selectedDate: string
    var selectedTime: string
    var bookingStep: int
    var bookingSuccess: bool
    var store: seq<Appointment>
    var appointments: seq<Appointment>

    /** The step shown is one of the three booking steps. */
    predicate Valid()
      reads this
    {
      1 <= bookingStep <= 3
    }

    constructor (stored: seq<Appointment>, uid: string)
      ensures Valid() && bookingStep == 1 && selectedDoctor.None?
      ensures selectedDate == "" && selectedTime == "" && !bookingSuccess
      ensures store == stored && appointments == OwnAppointments(stored, uid)
    {
      selectedDoctor := None;
      selectedDate := "";
      selectedTime := "";
      bookingStep := 1;
      bookingSuccess := false;
      store := stored;
      appointments := OwnAppointments(stored, uid);
    }

    /** "Book" on a doctor card. */
    method SelectDoctor(d: Doctor)
      requires Valid()
      modifies this
      ensures Valid() && selectedDoctor == Some(d)
      ensures bookingStep == old(bookingStep) && selectedDate == old(selectedDate) && selectedTime == old(selectedTime)
      ensures store == old(store) && appointments == old(appointments) && bookingSuccess == old(bookingSuccess)
    {
      selectedDoctor := Some(d);
    }

    /** The date input. */
    method ChooseDate(date: string)
      requires Valid()
      modifies this
      ensures Valid() && selectedDate == date
      ensures bookingStep == old(bookingStep) && selectedDoctor == old(selectedDoctor) && selectedTime == old(selectedTime)
      ensures store == old(store) && appointments == old(appointments) && bookingSuccess == old(bookingSuccess)
    {
      selectedDate := date;
    }

    /** A time-slot button. */
    method ChooseTime(time: string)
      requires Valid()
      modifies this
      ensures Valid() && selectedTime == time
      ensures bookingStep == old(bookingStep) && selectedDoctor == old(selectedDoctor) && selectedDate == old(selectedDate)
      ensures store == old(store) && appointments == old(appointments) && bookingSuccess == old(bookingSuccess)
    {
      selectedTime := time;
    }

    /** "Next: Select Time", shown on step 1: moves on only once a date is set. */
    method NextFromDate()
      requires Valid() && bookingStep == 1
      modifies this
      ensures Valid()
      ensures bookingStep == (if old(selectedDate) != "" then 2 else 1)
      ensures selectedDoctor == old(selectedDoctor) && selectedDate == old(selectedDate) && selectedTime == old(selectedTime)
      ensures store == old(store) && appointments == old(appointments) && bookingSuccess == old(bookingSuccess)
    {
      if selectedDate != "" {
        bookingStep := 2;
      }
    }

    /** "Next: Review", shown on step 2: moves on only once a time is set. */
    method NextFromTime()
      requires Valid() && bookingStep == 2
      modifies this
      ensures Valid()
      ensures bookingStep == (if old(selectedTime) != "" then 3 else 2)
      ensures selectedDoctor == old(selectedDoctor) && selectedDate == old(selectedDate) && selectedTime == old(selectedTime)
      ensures store == old(store) && appointments == old(appointments) && bookingSuccess == old(bookingSuccess)
    {
      if selectedTime != "" {
        bookingStep := 3;
      }
    }

    /** "Back" goes one step back; on step 1 the button reads "Cancel" and
        drops the selected doctor instead. */
    method BackOrCancel()
      requires Valid()
      modifies this
      ensures Valid()
      ensures old(bookingStep) > 1 ==> bookingStep == old(bookingStep) - 1 && selectedDoctor == old(selectedDoctor)
      ensures old(bookingStep) == 1 ==> bookingStep == 1 && selectedDoctor.None?
      ensures selectedDate == old(selectedDate) && selectedTime == old(selectedTime)
      ensures store == old(store) && appointments == old(appointments) && bookingSuccess == old(bookingSuccess)
    {
      if bookingStep > 1 {
        bookingStep := bookingStep - 1;
      } else {
        selectedDoctor := None;
      }
    }

    /** `bookAppointment`. `user` is the signed-in user's id, if any; `newId` is
        the id the store gives the record and `now` the booking time. Without a
        user, a doctor, a date and a time nothing happens. Otherwise the record
        is added, the user's list is read again and success is shown. */
    method BookAppointment(user: Option<string>, newId: string, now: int)
      requires Valid()
      modifies this
      ensures Valid()
      ensures user.None? || selectedDoctor.None? || selectedDate == "" || selectedTime == "" ==>
        store == old(store) && appointments == old(appointments) && bookingSuccess == old(bookingSuccess)
      ensures user.Some? && selectedDoctor.Some? && selectedDate != "" && selectedTime != "" ==>
        var a := NewAppointment(newId, user.value, selectedDoctor.value, selectedDate, selectedTime, now);
        store == old(store) + [a] && appointments == OwnAppointments(store, user.value)
        && multiset(appointments) == multiset(OwnAppointments(old(store), user.value)) + multiset{a}
        && bookingSuccess
      ensures selectedDoctor == old(selectedDoctor) && selectedDate == old(selectedDate)
      ensures selectedTime == old(selectedTime) && bookingStep == old(bookingStep)
    {
      if user.None? || selectedDoctor.None? || selectedDate == "" || selectedTime == "" {
        return;
      }
      var a := NewAppointment(newId, user.value, selectedDoctor.value, selectedDate, selectedTime, now);
      OwnAppointmentsAppend(store, a, user.value);
      store := store + [a];
      appointments := OwnAppointments(store, user.value);
      bookingSuccess := true;
    }

    /** What runs three seconds after a booking: the flow starts over. */
    method ResetAfterBooking()
      requires Valid()
      modifies this
      ensures Valid() && !bookingSuccess && selectedDoctor.None?
      ensures selectedDate == "" && selectedTime == "" && bookingStep == 1
      ensures store == old(store) && appointments == old(appointments)
    {
      bookingSuccess := false;
      selectedDoctor := None;
      selectedDate := "";
      selectedTime := "";
      bookingStep := 1;
    }

    /** "Back to Appointments" on the success screen: the selection is dropped,
        the success flag is left to the timer. */
    method BackToAppointments()
      requires Valid()
      modifies this
      ensures Valid() && selectedDoctor.None?
      ensures selectedDate == "" && selectedTime == "" && bookingStep == 1
      ensures store == old(store) && appointments == old(appointments) && bookingSuccess == old(bookingSuccess)
    {
      selectedDoctor := None;
      selectedDate := "";
      selectedTime := "";
      bookingStep := 1;
    }
  }
}
