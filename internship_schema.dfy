/** The two internship mutations: `CreateInternshipDiary`, which checks a
    new diary entry against the internship's existing entries and then
    inserts it, and `CreateInternshipApplication`, which looks up the
    student and the company, counts the working days and builds the
    internship row. */
module InternshipSchema {
  import opened Outcomes
  import opened Strings
  import opened WorkingDays

  datatype DiaryStatus = Draft | Submitted

  /** An `InternshipDiary` row; `hoursWorked` is the decimal the client
      sent. */
  datatype Diary = Diary(internship: int, date: Date, hoursWorked: real, dayNumber: int, status: DiaryStatus)

  /** The `success` and `message` fields of a mutation's payload. */
  datatype Response = Response(success: bool, message: string)

  const InternshipNotFound := "Staj bulunamadi."
  const NegativeHours := "Calisma saati negatif olamaz."
  const DiaryCreated := "Staj gunlugu kaydi basariyla olusturuldu."

  function DateTakenMessage(date: Date): string
    requires ValidDate(date)
  {
    IsoFormat(date) + " tarihli bir günlük zaten mevcut."
  }

  function DayTakenMessage(dayNumber: int): string {
    IntToString(dayNumber) + " numaralı bir günlük zaten mevcut."
  }

  /** `InternshipDiary.objects.filter(internship=..., date=...).exists()` */
  predicate DateTaken(diaries: seq<Diary>, internship: int, date: Date) {
    exists i :: 0 <= i < |diaries| && diaries[i].internship == internship && diaries[i].date == date
  }

  /** `InternshipDiary.objects.filter(internship=..., day_number=...).exists()` */
  predicate DayTaken(diaries: seq<Diary>, internship: int, dayNumber: int) {
    exists i :: 0 <= i < |diaries| && diaries[i].internship == internship && diaries[i].dayNumber == dayNumber
  }

  /** No internship has two diaries on the same date or with the same day
      number. */
  ghost predicate DiariesUnique(diaries: seq<Diary>) {
    forall i, j :: 0 <= i < j < |diaries| && diaries[i].internship == diaries[j].internship ==>
      diaries[i].date != diaries[j].date && diaries[i].dayNumber != diaries[j].dayNumber
  }

  /** The diaries of one internship. */
  function DiariesOf(diaries: seq<Diary>, internship: int): (r: seq<Diary>)
    ensures forall k :: 0 <= k < |r| ==> r[k].internship == internship && r[k] in diaries
    ensures forall i :: 0 <= i < |diaries| && diaries[i].internship == internship ==> diaries[i] in r
  {
    if diaries == [] then []
    else
      var rest := DiariesOf(diaries[1..], internship);
      if diaries[0].internship == internship then [diaries[0]] + rest else rest
  }

  /** What `CreateInternshipDiary.mutate` answers and the diary table it
      leaves: the checks run in the order internship, date, day number,
      hours, and only a request that passes all four inserts its row. */
  function DiaryOutcome(internships: set<int>, diaries: seq<Diary>, internship: int, date: Date,
                        hoursWorked: real, dayNumber: int, status: DiaryStatus): (Response, seq<Diary>)
    requires ValidDate(date)
  {
    if internship !in internships then (Response(false, InternshipNotFound), diaries)
    else if DateTaken(diaries, internship, date) then (Response(false, DateTakenMessage(date)), diaries)
    else if DayTaken(diaries, internship, dayNumber) then (Response(false, DayTakenMessage(dayNumber)), diaries)
    else if hoursWorked < 0.0 then (Response(false, NegativeHours), diaries)
    else (Response(true, DiaryCreated), diaries + [Diary(internship, date, hoursWorked, dayNumber, status)])
  }

  /** A request succeeds exactly when the internship exists, its date and
      its day number are both unused by that internship, and its hours are
      not negative; it then appends its row and nothing else, and a
      rejected request leaves the table as it was. */
  lemma DiaryAcceptedExactly(internships: set<int>, diaries: seq<Diary>, internship: int, date: Date,
                             hoursWorked: real, dayNumber: int, status: DiaryStatus)
    requires ValidDate(date)
    ensures var (r, after) := DiaryOutcome(internships, diaries, internship, date, hoursWorked, dayNumber, status);
            && (r.success <==>
                 internship in internships && !DateTaken(diaries, internship, date)
                 && !DayTaken(diaries, internship, dayNumber) && hoursWorked >= 0.0)
            && (r.success ==> after == diaries + [Diary(internship, date, hoursWorked, dayNumber, status)])
            && (!r.success ==> after == diaries)
  {
  }

  /** Each rejection names the first check that failed. */
  lemma DiaryRejectionOrder(internships: set<int>, diaries: seq<Diary>, internship: int, date: Date,
                            hoursWorked: real, dayNumber: int, status: DiaryStatus)
    requires ValidDate(date)
    ensures var r := DiaryOutcome(internships, diaries, internship, date, hoursWorked, dayNumber, status).0;
            && (internship !in internships ==> r.message == InternshipNotFound)
            && (internship in internships && DateTaken(diaries, internship, date) ==>
                  r.message == DateTakenMessage(date))
            && ((internship in internships && !DateTaken(diaries, internship, date)
                 && DayTaken(diaries, internship, dayNumber)) ==> r.message == DayTakenMessage(dayNumber))
            && ((internship in internships && !DateTaken(diaries, internship, date)
                 && !DayTaken(diaries, internship, dayNumber) && hoursWorked < 0.0) ==> r.message == NegativeHours)
  {
  }

  /** Diaries of other internships never decide the outcome: the answer
      depends only on the internship's own diaries. */
  lemma OtherInternshipsIrrelevant(internships: set<int>, diaries: seq<Diary>, others: seq<Diary>,
                                   internship: int, date: Date, hoursWorked: real, dayNumber: int,
                                   status: DiaryStatus)
    requires ValidDate(date)
    requires DiariesOf(diaries, internship) == DiariesOf(others, internship)
    ensures DiaryOutcome(internships, diaries, internship, date, hoursWorked, dayNumber, status).0
         == DiaryOutcome(internships, others, internship, date, hoursWorked, dayNumber, status).0
  {
    TakenInOwnDiaries(diaries, internship, date, dayNumber);
    TakenInOwnDiaries(others, internship, date, dayNumber);
  }

  lemma TakenInOwnDiaries(diaries: seq<Diary>, internship: int, date: Date, dayNumber: int)
    ensures DateTaken(diaries, internship, date) <==>
              exists k :: 0 <= k < |DiariesOf(diaries, internship)| && DiariesOf(diaries, internship)[k].date == date
    ensures DayTaken(diaries, internship, dayNumber) <==>
              exists k :: 0 <= k < |DiariesOf(diaries, internship)|
                          && DiariesOf(diaries, internship)[k].dayNumber == dayNumber
  {
    DateTakenInOwn(diaries, internship, date);
    DayTakenInOwn(diaries, internship, dayNumber);
  }

  lemma DateTakenInOwn(diaries: seq<Diary>, internship: int, date: Date)
    ensures DateTaken(diaries, internship, date) <==>
              exists k :: 0 <= k < |DiariesOf(diaries, internship)| && DiariesOf(diaries, internship)[k].date == date
  {
    var own := DiariesOf(diaries, internship);
    if DateTaken(diaries, internship, date) {
      var i :| 0 <= i < |diaries| && diaries[i].internship == internship && diaries[i].date == date;
      var k :| 0 <= k < |own| && own[k] == diaries[i];
      assert own[k].date == date;
      assert exists k :: 0 <= k < |DiariesOf(diaries, internship)| && DiariesOf(diaries, internship)[k].date == date;
    } else {
      forall k | 0 <= k < |own| ensures own[k].date != date {
        var i :| 0 <= i < |diaries| && diaries[i] == own[k];
        assert diaries[i].internship == internship;
      }
    }
  }

  lemma DayTakenInOwn(diaries: seq<Diary>, internship: int, dayNumber: int)
    ensures DayTaken(diaries, internship, dayNumber) <==>
              exists k :: 0 <= k < |DiariesOf(diaries, internship)|
                          && DiariesOf(diaries, internship)[k].dayNumber == dayNumber
  {
    var own := DiariesOf(diaries, internship);
    if DayTaken(diaries, internship, dayNumber) {
      var i :| 0 <= i < |diaries| && diaries[i].internship == internship && diaries[i].dayNumber == dayNumber;
      var k :| 0 <= k < |own| && own[k] == diaries[i];
      assert own[k].dayNumber == dayNumber;
      assert exists k :: 0 <= k < |DiariesOf(diaries, internship)|
                         && DiariesOf(diaries, internship)[k].dayNumber == dayNumber;
    } else {
      forall k | 0 <= k < |own| ensures own[k].dayNumber != dayNumber {
        var i :| 0 <= i < |diaries| && diaries[i] == own[k];
        assert diaries[i].internship == internship;
      }
    }
  }

  /** An insert keeps every internship's dates and day numbers unique. */
  lemma DiaryInsertKeepsUnique(internships: set<int>, diaries: seq<Diary>, internship: int, date: Date,
                               hoursWorked: real, dayNumber: int, status: DiaryStatus)
    requires ValidDate(date)
    ensures DiariesUnique(diaries) ==>
              DiariesUnique(DiaryOutcome(internships, diaries, internship, date, hoursWorked, dayNumber, status).1)
  {
    var after := DiaryOutcome(internships, diaries, internship, date, hoursWorked, dayNumber, status).1;
    if after != diaries && DiariesUnique(diaries) {
      forall i, j | 0 <= i < j < |after| && after[i].internship == after[j].internship
        ensures after[i].date != after[j].date && after[i].dayNumber != after[j].dayNumber
      {
        if j == |diaries| {
          assert after[i] == diaries[i];
        }
      }
    }
  }

  /** Zero hours is accepted. */
  lemma ZeroHoursAccepted(internships: set<int>, diaries: seq<Diary>, internship: int, date: Date,
                          dayNumber: int, status: DiaryStatus)
    requires ValidDate(date) && internship in internships
    requires !DateTaken(diaries, internship, date) && !DayTaken(diaries, internship, dayNumber)
    ensures DiaryOutcome(internships, diaries, internship, date, 0.0, dayNumber, status).0 == Response(true, DiaryCreated)
  {
  }

  /** `CreateInternshipApplication.mutate`
      --------------------------------- */

  const StudentNotFound := "Ogrenci bulunamadi."
  const CompanyNotFound := "Sirket bulunamadi."
  /** `Internship(...)` given the keyword `total_working_days`, which the
      model does not declare, raises `TypeError` with this text. */
  const UnexpectedField := "Internship() got unexpected keyword arguments: 'total_working_days'"

  /** The answer to an application: the student is looked up before the
      company, then the working days are counted (which can overflow), and
      building the row always raises, so nothing is ever saved. */
  function ApplicationOutcome(students: set<int>, companies: set<int>, student: int, company: int,
                              start: Date, end: Date): (r: Response)
    requires ValidDate(start) && ValidDate(end)
    ensures !r.success
  {
    if student !in students then Response(false, StudentNotFound)
    else if company !in companies then Response(false, CompanyNotFound)
    else match TotalWorkingDays(ToOrdinal(start), ToOrdinal(end))
      case Raised(m) => Response(false, m)
      case Ok(_) => Response(false, UnexpectedField)
  }

  /** A missing student is reported whether or not the company exists;
      the company is only looked up for an existing student. */
  lemma StudentReportedBeforeCompany(students: set<int>, companies: set<int>, student: int, company: int,
                                     start: Date, end: Date)
    requires ValidDate(start) && ValidDate(end)
    ensures student !in students ==>
              ApplicationOutcome(students, companies, student, company, start, end) == Response(false, StudentNotFound)
    ensures student in students && company !in companies ==>
              ApplicationOutcome(students, companies, student, company, start, end) == Response(false, CompanyNotFound)
    ensures student in students && company in companies ==>
              ApplicationOutcome(students, companies, student, company, start, end).message
                == (if ToOrdinal(start) <= ToOrdinal(end) == MaxOrdinal then OutOfRange else UnexpectedField)
  {
  }

  /** The internship tables the two mutations read and write. */
  class InternshipTables {
    var internships: set<int>
    var students: set<int>
    var companies: set<int>
    var diaries: seq<Diary>

    ghost predicate Valid()
      reads this
    {
      DiariesUnique(diaries)
    }

    constructor (internships: set<int>, students: set<int>, companies: set<int>, diaries: seq<Diary>)
      requires DiariesUnique(diaries)
      ensures Valid()
      ensures this.internships == internships && this.students == students
      ensures this.companies == companies && this.diaries == diaries
    {
      this.internships := internships;
      this.students := students;
      this.companies := companies;
      this.diaries := diaries;
    }

    /** `CreateInternshipDiary.mutate`. */
    method CreateInternshipDiary(internship: int, date: Date, hoursWorked: real, dayNumber: int,
                                 status: DiaryStatus) returns (r: Response)
      requires ValidDate(date)
      modifies this`diaries
      ensures (r, diaries) == DiaryOutcome(internships, old(diaries), internship, date, hoursWorked, dayNumber, status)
      ensures old(Valid()) ==> Valid()
    {
      DiaryInsertKeepsUnique(internships, diaries, internship, date, hoursWorked, dayNumber, status);
      if internship !in internships {
        return Response(false, InternshipNotFound);
      }
      if DateTaken(diaries, internship, date) {
        return Response(false, DateTakenMessage(date));
      }
      if DayTaken(diaries, internship, dayNumber) {
        return Response(false, DayTakenMessage(dayNumber));
      }
      if hoursWorked < 0.0 {
        return Response(false, NegativeHours);
      }
      diaries := diaries + [Diary(internship, date, hoursWorked, dayNumber, status)];
      r := Response(true, DiaryCreated);
    }

    /** `CreateInternshipApplication.mutate`; it never writes. */
    method CreateInternshipApplication(student: int, company: int, start: Date, end: Date) returns (r: Response)
      requires ValidDate(start) && ValidDate(end)
      ensures r == ApplicationOutcome(students, companies, student, company, start, end)
    {
      if student !in students {
        return Response(false, StudentNotFound);
      }
      if company !in companies {
        return Response(false, CompanyNotFound);
      }
      var total := CalculateTotalWorkingDays(ToOrdinal(start), ToOrdinal(end));
      if total.Raised? {
        return Response(false, total.message);
      }
      r := Response(false, UnexpectedField);
    }
  }
}
