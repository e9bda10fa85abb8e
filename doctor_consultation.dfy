/** The doctor-consultation page: the fixed doctor directory, the search and
    specialty filter over it, and the booking dialog. */
module DoctorConsultation {
  import opened Wrappers
  import opened Seqs

  /** A directory entry (ratings, fees, experience and biography are display
      data and are not modelled). */
  datatype Doctor = Doctor(
    id: nat, name: string, specialty: string, hospital: string, location: string,
    availability: seq<string>)

  /** The page's constant `doctors` array. */
  const Directory: seq<Doctor> := [
    Doctor(1, "Dr. Sarah Mitchell", "Cardiology", "City General Hospital", "New York, NY",
           ["Mon 9:00 AM", "Mon 2:00 PM", "Wed 10:00 AM", "Fri 3:00 PM"]),
    Doctor(2, "Dr. James Chen", "Dermatology", "Metropolitan Medical Center", "Los Angeles, CA",
           ["Tue 11:00 AM", "Thu 1:00 PM", "Fri 9:00 AM"]),
    Doctor(3, "Dr. Emily Rodriguez", "General Practice", "Community Health Clinic", "Chicago, IL",
           ["Mon 10:00 AM", "Tue 2:00 PM", "Wed 3:00 PM", "Thu 11:00 AM"]),
    Doctor(4, "Dr. Michael Park", "Orthopedics", "Sports Medicine Institute", "Seattle, WA",
           ["Wed 9:00 AM", "Thu 2:00 PM", "Fri 10:00 AM"]),
    Doctor(5, "Dr. Lisa Thompson", "Pediatrics", "Children's Healthcare", "Boston, MA",
           ["Mon 1:00 PM", "Tue 10:00 AM", "Wed 11:00 AM", "Thu 3:00 PM"]),
    Doctor(6, "Dr. Robert Kumar", "Neurology", "Brain & Spine Center", "San Francisco, CA",
           ["Tue 9:00 AM", "Wed 2:00 PM", "Fri 11:00 AM"])
  ]

  const AllSpecialties: string := "all"

  /** The options of the specialty selector. */
  const Specialties: seq<string> := [
    AllSpecialties, "Cardiology", "Dermatology", "General Practice", "Orthopedics", "Pediatrics", "Neurology"
  ]

  /** The selector offers "all" and exactly the specialties of the directory. */
  lemma SpecialtiesMatchDirectory()
    ensures Specialties[0] == AllSpecialties
    ensures forall d :: d in Directory ==> d.specialty in Specialties[1..]
    ensures forall sp :: sp in Specialties[1..] ==> exists d :: d in Directory && d.specialty == sp
  {
    assert forall i :: 1 <= i < |Specialties| ==> Specialties[i] == Directory[i - 1].specialty;
  }

  predicate IsUpper(c: char)
  {
    'A' <= c <= 'Z'
  }

  /** Lower-casing of one character (ASCII letters only): the result is never
      an upper-case letter, and any other character is left alone. */
  function LowerChar(c: char): (lc: char)
    ensures !IsUpper(lc)
    ensures !IsUpper(c) ==> lc == c
    ensures IsUpper(c) ==> 'a' <= lc <= 'z' && lc as int - 'a' as int == c as int - 'A' as int
  {
    if 'A' <= c <= 'Z' then (c as int + 32) as char else c
  }

  /** `toLowerCase()`: the same length, no upper-case letter left, and every
      other character kept in place. */
  function Lower(s: string): (r: string)
    ensures |r| == |s|
    ensures forall i :: 0 <= i < |r| ==> !IsUpper(r[i])
    ensures forall i :: 0 <= i < |s| && !IsUpper(s[i]) ==> r[i] == s[i]
    ensures forall i :: 0 <= i < |s| && IsUpper(s[i]) ==>
      'a' <= r[i] <= 'z' && r[i] as int - 'a' as int == s[i] as int - 'A' as int
  {
    seq(|s|, i requires 0 <= i < |s| => LowerChar(s[i]))
  }

  /** Lower-casing twice is lower-casing once. */
  lemma LowerIdempotent(s: string)
    ensures Lower(Lower(s)) == Lower(s)
  {
    assert forall i :: 0 <= i < |s| ==> LowerChar(LowerChar(s[i])) == LowerChar(s[i]);
  }

  /** The two characters are the same letter in either case, or equal. */
  predicate SameLetter(a: char, b: char)
  {
    a == b
    || (IsUpper(a) && b as int == a as int + ('a' as int - 'A' as int))
    || (IsUpper(b) && a as int == b as int + ('a' as int - 'A' as int))
  }

  /** The two strings differ at most in the ASCII case of their letters. */
  predicate SameUpToCase(a: string, b: string)
  {
    |a| == |b| && forall i :: 0 <= i < |a| ==> SameLetter(a[i], b[i])
  }

  /** Strings that differ only in letter case lower-case alike. */
  lemma LowerIgnoresCase(a: string, b: string)
    requires SameUpToCase(a, b)
    ensures Lower(a) == Lower(b)
  {
    forall i | 0 <= i < |a| ensures Lower(a)[i] == Lower(b)[i] {
      assert SameLetter(a[i], b[i]);
    }
  }

  /** `needle` occurs in `hay` at position `i`. */
  predicate OccursAt(hay: string, needle: string, i: int)
  {
    0 <= i && i + |needle| <= |hay| && hay[i..i + |needle|] == needle
  }

  /** `hay.includes(needle)`: a prefix test at each position in turn. The empty
      needle is always included, and a needle longer than the hay never is. */
  function Includes(hay: string, needle: string): (found: bool)
    ensures needle == [] ==> found
    ensures found ==> |needle| <= |hay|
  {
    needle <= hay || (hay != [] && Includes(hay[1..], needle))
  }

  /** `Includes` holds exactly when the needle occurs somewhere in the hay. */
  lemma {:induction false} IncludesIffOccurs(hay: string, needle: string)
    ensures Includes(hay, needle) <==> exists i :: OccursAt(hay, needle, i)
  {
    if needle <= hay {
      assert OccursAt(hay, needle, 0);
    } else if hay == [] {
      assert forall i :: !OccursAt(hay, needle, i);
    } else {
      IncludesIffOccurs(hay[1..], needle);
      if exists j :: OccursAt(hay[1..], needle, j) {
        var j :| OccursAt(hay[1..], needle, j);
        assert hay[1..][j..j + |needle|] == hay[j + 1..j + 1 + |needle|];
        assert OccursAt(hay, needle, j + 1);
      }
      if exists i :: OccursAt(hay, needle, i) {
        var i :| OccursAt(hay, needle, i);
        assert OccursAt(hay, needle, 0) ==> needle <= hay;
        assert hay[1..][i - 1..i - 1 + |needle|] == hay[i..i + |needle|];
        assert OccursAt(hay[1..], needle, i - 1);
      }
    }
  }

  /** The search half of the filter, as a statement: the lower-cased term occurs
      in the lower-cased name, specialty or location. */
  ghost predicate SearchHit(d: Doctor, term: string)
  {
    (exists i :: OccursAt(Lower(d.name), Lower(term), i))
    || (exists i :: OccursAt(Lower(d.specialty), Lower(term), i))
    || (exists i :: OccursAt(Lower(d.location), Lower(term), i))
  }

  /** The search half of the filter, as the page computes it; it holds exactly
      when the search hits, and always for an empty term. */
  predicate MatchesSearch(d: Doctor, term: string): (hit: bool)
    ensures hit <==> SearchHit(d, term)
    ensures term == "" ==> hit
  {
    var t := Lower(term);
    IncludesIffOccurs(Lower(d.name), t);
    IncludesIffOccurs(Lower(d.specialty), t);
    IncludesIffOccurs(Lower(d.location), t);
    Includes(Lower(d.name), t) || Includes(Lower(d.specialty), t) || Includes(Lower(d.location), t)
  }

  /** The specialty half of the filter. */
  predicate MatchesSpecialty(d: Doctor, specialty: string)
  {
    specialty == AllSpecialties || d.specialty == specialty
  }

  function Keeps(term: string, specialty: string): Doctor -> bool
  {
    (d: Doctor) => MatchesSearch(d, term) && MatchesSpecialty(d, specialty)
  }

  /** The filter `filteredDoctors` applies, over any list of doctors. */
  function FilterDoctors(doctors: seq<Doctor>, term: string, specialty: string): (kept: seq<Doctor>)
    ensures forall d :: d in kept <==>
      d in doctors && SearchHit(d, term) && (specialty == AllSpecialties || d.specialty == specialty)
    ensures IsSubsequence(kept, doctors)
  {
    Filter(Keeps(term, specialty), doctors)
  }

  /** `filteredDoctors` itself: the directory's doctors the search hits and the
      specialty admits, in directory order. */
  function FilteredDoctors(term: string, specialty: string): (kept: seq<Doctor>)
    ensures forall d :: d in kept <==>
      d in Directory && SearchHit(d, term) && (specialty == AllSpecialties || d.specialty == specialty)
    ensures IsSubsequence(kept, Directory)
    ensures |kept| <= |Directory|
  {
    FilterDoctors(Directory, term, specialty)
  }

  /** An empty search with "all" selected lists every doctor, in order. */
  lemma EmptySearchListsAll(doctors: seq<Doctor>)
    ensures FilterDoctors(doctors, "", AllSpecialties) == doctors
  {
    forall d | d in doctors ensures Keeps("", AllSpecialties)(d) {
      assert Lower("") == "";
    }
    FilterKeepsAll(Keeps("", AllSpecialties), doctors);
  }

  /** Choosing a specialty instead of "all" keeps a subsequence of what "all"
      kept for the same search term. */
  lemma SpecialtyNarrows(doctors: seq<Doctor>, term: string, specialty: string)
    ensures IsSubsequence(FilterDoctors(doctors, term, specialty), FilterDoctors(doctors, term, AllSpecialties))
  {
    FilterMonotone(Keeps(term, specialty), Keeps(term, AllSpecialties), doctors);
  }

  /** Filtering the filtered list again changes nothing. */
  lemma FilterDoctorsIdempotent(doctors: seq<Doctor>, term: string, specialty: string)
    ensures FilterDoctors(FilterDoctors(doctors, term, specialty), term, specialty)
         == FilterDoctors(doctors, term, specialty)
  {
    FilterIdempotent(Keeps(term, specialty), doctors);
  }

  /** Two terms that differ only in letter case list the same doctors. */
  lemma SearchCaseBlind(doctors: seq<Doctor>, a: string, b: string, specialty: string)
    requires SameUpToCase(a, b)
    ensures FilterDoctors(doctors, a, specialty) == FilterDoctors(doctors, b, specialty)
  {
    LowerIgnoresCase(a, b);
    FilterAgreeing(Keeps(a, specialty), Keeps(b, specialty), doctors);
  }

  /** Searching "CARDIO" in capitals finds the cardiologist. */
  lemma ScenarioUpperCaseSearch()
    ensures MatchesSearch(Directory[0], "CARDIO")
  {
    var term := Lower("CARDIO");
    assert term == "cardio";
    var specialty := Lower(Directory[0].specialty);
    assert specialty[..6] == "cardio";
    assert Includes(specialty, term);
  }

  /** The search ignores the case of the term. */
  lemma SearchIgnoresCase(doctors: seq<Doctor>, term: string, specialty: string)
    ensures FilterDoctors(doctors, Lower(term), specialty) == FilterDoctors(doctors, term, specialty)
  {
    LowerIdempotent(term);
    FilterAgreeing(Keeps(Lower(term), specialty), Keeps(term, specialty), doctors);
  }

  /** The booking form inside the dialog. */
  datatype BookingData = BookingData(date: string, time: string, mode: string)

  /** The form's initial and reset value. */
  const EmptyBooking: BookingData := BookingData("", "", "video")

  /** The guard of `handleBooking`: both a date and a time are chosen. The
      reset form never passes it. */
  predicate CanBook(b: BookingData): (ok: bool)
    ensures ok <==> |b.date| > 0 && |b.time| > 0
    ensures b.date == EmptyBooking.date ==> !ok
  {
    b.date != "" && b.time != ""
  }

  /** The booking state of the page. */
  class BookingDialog {
    var bookingData: BookingData
    var isBookingOpen: bool
    var selectedDoctor: Option<Doctor>

    constructor ()
      ensures bookingData == EmptyBooking && !isBookingOpen && selectedDoctor == None
    {
      bookingData, isBookingOpen, selectedDoctor := EmptyBooking, false, None;
    }

    /** The "view profile" button of a doctor card. */
    method SelectDoctor(d: Doctor)
      modifies this`selectedDoctor
      ensures selectedDoctor == Some(d)
    {
      selectedDoctor := Some(d);
    }

    /** The dialog's `onOpenChange`. */
    method SetOpen(open: bool)
      modifies this`isBookingOpen
      ensures isBookingOpen == open
    {
      isBookingOpen := open;
    }

    /** The date input: `{ ...bookingData, date }`. */
    method SetDate(date: string)
      modifies this`bookingData
      ensures bookingData == old(bookingData).(date := date)
    {
      bookingData := bookingData.(date := date);
    }

    /** The time-slot selector: `{ ...bookingData, time }`. */
    method SetTime(time: string)
      modifies this`bookingData
      ensures bookingData == old(bookingData).(time := time)
    {
      bookingData := bookingData.(time := time);
    }

    /** The mode selector: `{ ...bookingData, mode }`. */
    method SetMode(mode: string)
      modifies this`bookingData
      ensures bookingData == old(bookingData).(mode := mode)
    {
      bookingData := bookingData.(mode := mode);
    }

    /** `handleBooking`: without a date or a time nothing changes; otherwise the
        dialog closes and the form is reset. */
    method HandleBooking() returns (booked: bool)
      modifies this`bookingData, this`isBookingOpen
      ensures booked <==> CanBook(old(bookingData))
      ensures booked ==> !isBookingOpen && bookingData == EmptyBooking
      ensures !booked ==> isBookingOpen == old(isBookingOpen) && bookingData == old(bookingData)
    {
      if bookingData.date == "" || bookingData.time == "" {
        return false;
      }
      isBookingOpen := false;
      bookingData := EmptyBooking;
      return true;
    }
  }

  /** Setting a date and a time and confirming books and resets the form,
      whatever the mode. */
  method BookingScenario(d: Doctor, date: string, time: string, mode: string) returns (booked: bool)
    requires date != "" && time != ""
    ensures booked
  {
    var dialog := new BookingDialog();
    dialog.SelectDoctor(d);
    dialog.SetOpen(true);
    dialog.SetDate(date);
    dialog.SetTime(time);
    dialog.SetMode(mode);
    booked := dialog.HandleBooking();
    assert !dialog.isBookingOpen && dialog.bookingData == EmptyBooking;
  }
}
