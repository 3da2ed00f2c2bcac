/** The coordinator's seminar scheduling form: one examiner chosen among
    the lecturers other than the advisor, a date-time and a room from a
    fixed list, with the cross-field checks of `clean`. */
module FormsSeminar {
  import opened Common

  /** The rooms a seminar can be held in. */
  const RuangSeminarChoices: seq<string> := [
    "Ruang Rapat Prodi",
    "10.2 Twin Tower",
    "10.3 Twin Tower",
    "Ruang 108 FIK 2",
    "Ruang Lab Sains Data",
    "Ruang 202 FIK 1",
    "Ruang 304 FIK 1"
  ]

  // ---------------------------------------------------------------------
  // Decimal text of an id
  // ---------------------------------------------------------------------

  predicate IsDigit(c: char)
  {
    '0' <= c <= '9'
  }

  predicate AllDigits(s: string)
  {
    forall i :: 0 <= i < |s| ==> IsDigit(s[i])
  }

  function DigitChar(d: nat): (c: char)
    requires d < 10
    ensures IsDigit(c) && c as int - '0' as int == d
  {
    ('0' as int + d) as char
  }

  /** `str(n)` for a non-negative integer: no sign, no leading zero. */
  function Decimal(n: nat): (r: string)
    ensures |r| >= 1 && AllDigits(r)
    ensures r[0] == '0' <==> n == 0
    ensures n < 10 <==> |r| == 1
  {
    if n < 10 then [DigitChar(n)] else Decimal(n / 10) + [DigitChar(n % 10)]
  }

  /** The number a string of digits denotes. */
  function DigitsValue(s: string): nat
    requires AllDigits(s)
  {
    if |s| == 0 then 0 else DigitsValue(s[..|s| - 1]) * 10 + (s[|s| - 1] as int - '0' as int)
  }

  /** The id posted for the examiner: any non-empty string of digits,
      leading zeros included; anything else (the empty choice included)
      selects nobody. */
  function ParseId(s: string): (r: Option<nat>)
    ensures r.Some? <==> |s| >= 1 && AllDigits(s)
  {
    if |s| >= 1 && AllDigits(s) then Some(DigitsValue(s)) else None
  }

  /** The text an id is rendered as in the select box reads back as that id. */
  lemma {:induction false} DecimalRoundTrip(n: nat)
    ensures ParseId(Decimal(n)) == Some(n)
    decreases n
  {
    var s := Decimal(n);
    if n >= 10 {
      DecimalRoundTrip(n / 10);
      assert s[..|s| - 1] == Decimal(n / 10);
    } else {
      assert s == [DigitChar(n)];
      assert s[..0] == [];
      assert DigitsValue(s) == DigitsValue(s[..0]) * 10 + (s[0] as int - '0' as int);
    }
  }

  /** A digit string without leading zero is the rendering of its value. */
  lemma {:induction false} CanonicalRoundTrip(s: string)
    requires |s| >= 1 && AllDigits(s) && (s[0] == '0' ==> |s| == 1)
    ensures Decimal(DigitsValue(s)) == s
    decreases |s|
  {
    if |s| > 1 {
      var p := s[..|s| - 1];
      CanonicalRoundTrip(p);
      assert DigitsValue(p) >= 1;
      assert DigitsValue(s) / 10 == DigitsValue(p);
    }
  }

  /** Different ids are rendered differently. */
  lemma DecimalInjective(a: nat, b: nat)
    requires Decimal(a) == Decimal(b)
    ensures a == b
  {
    DecimalRoundTrip(a);
    DecimalRoundTrip(b);
  }

  // ---------------------------------------------------------------------
  // Field cleaning
  // ---------------------------------------------------------------------

  /** The examiner's choices: every lecturer, minus the advisor when the
      seminar has one. */
  function ExaminerChoices(dosens: set<DosenId>, pembimbing: Option<DosenId>): (c: set<DosenId>)
    ensures forall d :: d in c <==> d in dosens && pembimbing != Some(d)
  {
    if pembimbing.Some? then dosens - {pembimbing.value} else dosens
  }

  /** What the coordinator posts. */
  datatype PenjadwalanPost = PenjadwalanPost(dosenPenguji: string, jadwal: Option<DateTime>, ruang: string)

  /** The fields as cleaned one by one; a field that failed is absent. */
  datatype Cleaned = Cleaned(dosenPenguji: Option<DosenId>, jadwal: Option<DateTime>, ruang: Option<string>)

  /** Field-level cleaning: the examiner must be a listed lecturer, the room
      one of the listed rooms; an unparsed date-time is absent. */
  function CleanFields(post: PenjadwalanPost, dosens: set<DosenId>, pembimbing: Option<DosenId>): (c: Cleaned)
    ensures c.dosenPenguji.Some? <==>
      ParseId(post.dosenPenguji).Some? && ParseId(post.dosenPenguji).value in ExaminerChoices(dosens, pembimbing)
    ensures c.dosenPenguji.Some? ==> c.dosenPenguji == ParseId(post.dosenPenguji)
    ensures c.jadwal == post.jadwal
    ensures c.ruang.Some? <==> post.ruang in RuangSeminarChoices
    ensures c.ruang.Some? ==> c.ruang.value == post.ruang
  {
    var id := ParseId(post.dosenPenguji);
    Cleaned(
      if id.Some? && id.value in ExaminerChoices(dosens, pembimbing) then id else None,
      post.jadwal,
      if post.ruang in RuangSeminarChoices then Some(post.ruang) else None)
  }

  // ---------------------------------------------------------------------
  // Cross-field checks
  // ---------------------------------------------------------------------

  datatype FormError = ExaminerRequired | AdvisorAsExaminer | JadwalRequired | RuangRequired

  function FormErrorMessage(e: FormError): string
  {
    match e
    case ExaminerRequired => "Dosen penguji wajib dipilih."
    case AdvisorAsExaminer => "Dosen pembimibng tidak boleh menjadi dosen penguji."
    case JadwalRequired => "Jadwal seminar wajib diisi."
    case RuangRequired => "Ruang seminar wajib dipilih"
  }

  /** The position of each check in `clean`. */
  function Rank(e: FormError): nat
  {
    match e
    case ExaminerRequired => 0
    case AdvisorAsExaminer => 1
    case JadwalRequired => 2
    case RuangRequired => 3
  }

  /** Errors strictly in check order. */
  predicate InCheckOrder(es: seq<FormError>)
  {
    forall i, j :: 0 <= i < j < |es| ==> Rank(es[i]) < Rank(es[j])
  }

  /** `errors.append(e)` when the check failed: `e` comes after every error
      already collected. */
  function Append(es: seq<FormError>, failed: bool, e: FormError): (r: seq<FormError>)
    requires InCheckOrder(es) && forall i :: 0 <= i < |es| ==> Rank(es[i]) < Rank(e)
    ensures InCheckOrder(r) && forall i :: 0 <= i < |r| ==> Rank(r[i]) <= Rank(e)
    ensures forall x :: x in r <==> x in es || (failed && x == e)
  {
    if failed then es + [e] else es
  }

  /** The errors of the checks that failed, appended in check order. */
  function Collect(noExaminer: bool, advisor: bool, noJadwal: bool, noRuang: bool): (es: seq<FormError>)
    ensures ExaminerRequired in es <==> noExaminer
    ensures AdvisorAsExaminer in es <==> advisor
    ensures JadwalRequired in es <==> noJadwal
    ensures RuangRequired in es <==> noRuang
    ensures InCheckOrder(es)
  {
    var e0 := Append([], noExaminer, ExaminerRequired);
    var e1 := Append(e0, advisor, AdvisorAsExaminer);
    var e2 := Append(e1, noJadwal, JadwalRequired);
    Append(e2, noRuang, RuangRequired)
  }

  datatype CleanResult = CleanResult(data: Cleaned, errors: seq<FormError>)

  /** `clean` with the advisor check comparing the posted text against the
      advisor's id, as evidently intended: every failed check is reported,
      each once, in the order the checks run. */
  function Clean(post: PenjadwalanPost, dosens: set<DosenId>, pembimbing: Option<DosenId>): (r: CleanResult)
    ensures r.data == CleanFields(post, dosens, pembimbing)
    ensures ExaminerRequired in r.errors <==> r.data.dosenPenguji.None?
    ensures AdvisorAsExaminer in r.errors <==> pembimbing.Some? && post.dosenPenguji == Decimal(pembimbing.value)
    ensures JadwalRequired in r.errors <==> post.jadwal.None?
    ensures RuangRequired in r.errors <==> post.ruang !in RuangSeminarChoices
    ensures InCheckOrder(r.errors)
  {
    var c := CleanFields(post, dosens, pembimbing);
    var errors := Collect(
      c.dosenPenguji.None?,
      pembimbing.Some? && post.dosenPenguji == Decimal(pembimbing.value),
      c.jadwal.None?,
      c.ruang.None?);
    CleanResult(c, errors)
  }

  /** A scheduling the form accepts names a listed lecturer other than the
      advisor, a date-time and a listed room; and every such posting,
      with the examiner's id written plainly, is accepted. */
  lemma AcceptedScheduleIsSound(post: PenjadwalanPost, dosens: set<DosenId>, pembimbing: Option<DosenId>)
    ensures Clean(post, dosens, pembimbing).errors == [] <==>
      ParseId(post.dosenPenguji).Some? &&
      ParseId(post.dosenPenguji).value in dosens &&
      Some(ParseId(post.dosenPenguji).value) != pembimbing &&
      post.jadwal.Some? && post.ruang in RuangSeminarChoices
  {
    var r := Clean(post, dosens, pembimbing);
    var id := ParseId(post.dosenPenguji);
    if pembimbing.Some? && post.dosenPenguji == Decimal(pembimbing.value) {
      DecimalRoundTrip(pembimbing.value);
      assert AdvisorAsExaminer in r.errors;
    }
  }

  /** Posting the advisor's id reports both that no examiner was chosen
      (the advisor is not among the choices) and that the advisor cannot
      examine. */
  lemma AdvisorPostedGetsBothErrors(post: PenjadwalanPost, dosens: set<DosenId>, p: DosenId)
    requires post.dosenPenguji == Decimal(p)
    ensures ExaminerRequired in Clean(post, dosens, Some(p)).errors
    ensures AdvisorAsExaminer in Clean(post, dosens, Some(p)).errors
  {
    DecimalRoundTrip(p);
  }

  /** The advisor check compares text, so a zero-padded id slips past it;
      the examiner field still refuses the advisor. */
  lemma ZeroPaddedAdvisorCaughtByChoices(dosens: set<DosenId>)
    requires 5 in dosens
    ensures AdvisorAsExaminer !in Clean(PenjadwalanPost("05", Some(0), "Ruang Rapat Prodi"), dosens, Some(5)).errors
    ensures Clean(PenjadwalanPost("05", Some(0), "Ruang Rapat Prodi"), dosens, Some(5)).errors == [ExaminerRequired]
  {
    assert Decimal(5) == "5";
    assert ParseId("05") == Some(5) by {
      assert "05"[..1] == "0";
      assert "0"[..0] == "";
    }
  }

  // ---------------------------------------------------------------------
  // The check as written
  // ---------------------------------------------------------------------

  datatype AsWrittenClean = NameError | Checked(errors: seq<FormError>)

  /** `clean` as written: once the seminar has an advisor it reads the
      undefined `raw_d1` and `raw_d2` and fails before any error is
      reported; without an advisor it behaves as `Clean`. */
  function CleanAsWritten(post: PenjadwalanPost, dosens: set<DosenId>, pembimbing: Option<DosenId>): (r: AsWrittenClean)
    ensures r.NameError? <==> pembimbing.Some?
    ensures r.Checked? ==> r.errors == Clean(post, dosens, pembimbing).errors
  {
    if pembimbing.Some? then NameError else Checked(Clean(post, dosens, pembimbing).errors)
  }

  /** Every seminar with an advisor fails as written, even for a posting
      the intended check accepts. */
  lemma AsWrittenFailsWithAdvisor()
    ensures Clean(PenjadwalanPost("2", Some(0), "Ruang Rapat Prodi"), {1, 2}, Some(1)).errors == []
    ensures CleanAsWritten(PenjadwalanPost("2", Some(0), "Ruang Rapat Prodi"), {1, 2}, Some(1)) == NameError
  {
    assert ParseId("2") == Some(2) by {
      assert "2"[..0] == "";
    }
    assert Decimal(1) == "1";
  }
}
