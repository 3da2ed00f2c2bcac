/** The lecturer and coordinator views: role guards, who may see and grade
    a seminar, the examiner's assessment, the coordinator's review of an
    application, the mentoring quota, and scheduling a seminar. */
module ViewsDosen {
  import opened Common
  import opened MasterData
  import opened Auth
  import opened Scores
  import FormsSeminar

  // ---------------------------------------------------------------------
  // Role guards
  // ---------------------------------------------------------------------

  const NotDosenMessage: string := "Akun ini tidak terhubung dengan data Dosen."
  const NotKoordinatorMessage: string := "Anda bukan koordinator PKL."

  /** `_require_dosen`: the account's lecturer, or a refusal. */
  function RequireDosen(u: User): (r: Response<DosenId>)
    ensures r.Ok? <==> u.dosenProfile.Some?
    ensures r.Ok? ==> r.value == u.dosenProfile.value
    ensures !r.Ok? ==> r == Denied(NotDosenMessage)
  {
    if u.dosenProfile.None? then Denied(NotDosenMessage) else Ok(u.dosenProfile.value)
  }

  /** `_require_koordinator`: the account's lecturer when flagged as
      coordinator; a non-lecturer gets the lecturer refusal, a plain
      lecturer the coordinator refusal. */
  function RequireKoordinator(u: User, dosens: map<DosenId, Dosen>): (r: Response<DosenId>)
    requires u.dosenProfile.Some? ==> u.dosenProfile.value in dosens
    ensures r.Ok? <==> u.dosenProfile.Some? && dosens[u.dosenProfile.value].isKoordinatorPkl
    ensures r.Ok? ==> r.value == u.dosenProfile.value
    ensures u.dosenProfile.None? ==> r == Denied(NotDosenMessage)
    ensures u.dosenProfile.Some? && !r.Ok? ==> r == Denied(NotKoordinatorMessage)
  {
    match RequireDosen(u)
    case Ok(d) => if dosens[d].isKoordinatorPkl then Ok(d) else Denied(NotKoordinatorMessage)
    case _ => Denied(NotDosenMessage)
  }

  /** The guards admit exactly the accounts that the post-login redirect
      sends to the coordinator and lecturer dashboards. */
  lemma GuardsMatchLoginRoutes(u: User, dosens: map<DosenId, Dosen>)
    requires u.dosenProfile.Some? ==> u.dosenProfile.value in dosens
    ensures RequireKoordinator(u, dosens).Ok? <==> AfterLogin(u, dosens) == KoordinatorDashboard
    ensures RequireDosen(u).Ok? <==>
      AfterLogin(u, dosens) == KoordinatorDashboard || AfterLogin(u, dosens) == DosenDashboard
  {
  }

  // ---------------------------------------------------------------------
  // Who may see and who may grade a seminar
  // ---------------------------------------------------------------------

  /** The seminar's advisor and its two examiners may open its detail page. */
  predicate CanView(s: Seminar, d: DosenId)
  {
    s.pembimbing == Some(d) || s.penguji1 == Some(d) || s.penguji2 == Some(d)
  }

  /** Only the two examiners may grade it. */
  predicate CanGrade(s: Seminar, d: DosenId)
  {
    s.penguji1 == Some(d) || s.penguji2 == Some(d)
  }

  /** Whoever may grade a seminar may see it; its advisor may see it but,
      unless also an examiner, not grade it. */
  lemma GradeImpliesView(s: Seminar, d: DosenId)
    ensures CanGrade(s, d) ==> CanView(s, d)
    ensures s.pembimbing == Some(d) && s.penguji1 != Some(d) && s.penguji2 != Some(d) ==>
      CanView(s, d) && !CanGrade(s, d)
  {
  }

  // ---------------------------------------------------------------------
  // Assessments
  // ---------------------------------------------------------------------

  /** The component marks an examiner fills in. */
  datatype AssessmentForm = AssessmentForm(
    pemahamanMateri: Option<int>,
    kualitasLaporan: Option<int>,
    presentasi: Option<int>,
    penguasaanLapangan: Option<int>,
    sikapProfesional: Option<int>,
    catatan: string)

  /** One examiner's assessment of one seminar. Its numeric mark is derived
      from the components when the assessment is saved. */
  datatype Assessment = Assessment(
    seminar: nat,
    penguji: DosenId,
    form: AssessmentForm,
    nilaiAngka: Option<real>)

  function AssessmentKey(a: Assessment): (nat, nat)
  {
    (a.seminar, a.penguji)
  }

  /** The numeric marks of a list of assessments, in order. */
  function Marks(xs: seq<Assessment>): (ms: seq<Option<real>>)
    ensures |ms| == |xs| && forall i :: 0 <= i < |xs| ==> ms[i] == xs[i].nilaiAngka
  {
    seq(|xs|, i requires 0 <= i < |xs| => xs[i].nilaiAngka)
  }

  /** `existing` is what `filter(seminar=..., penguji=...).first()` returns. */
  ghost predicate IsExistingAssessment(rows: map<nat, Assessment>, seminar: nat, d: DosenId, existing: Option<nat>)
  {
    match existing
    case Some(k) => k in rows && AssessmentKey(rows[k]) == (seminar, d)
    case None => forall k :: k in rows ==> AssessmentKey(rows[k]) != (seminar, d)
  }

  predicate DistinctKeys(keys: seq<nat>)
  {
    forall i, j :: 0 <= i < j < |keys| ==> keys[i] != keys[j]
  }

  /** `keys` are the primary keys `SeminarAssessment.objects.filter(seminar=pk)`
      returns, in whatever order the database gives them: every assessment
      of the seminar, each once, and no other. */
  ghost predicate IsSeminarFilter(rows: map<nat, Assessment>, pk: nat, keys: seq<nat>)
  {
    (forall i :: 0 <= i < |keys| ==> keys[i] in rows && rows[keys[i]].seminar == pk) &&
    DistinctKeys(keys) &&
    (forall k :: k in rows && rows[k].seminar == pk ==> k in keys)
  }

  /** The rows under `keys`, in that order. */
  function Listed(rows: map<nat, Assessment>, keys: seq<nat>): (xs: seq<Assessment>)
    requires forall i :: 0 <= i < |keys| ==> keys[i] in rows
    ensures |xs| == |keys|
  {
    seq(|keys|, i requires 0 <= i < |keys| => rows[keys[i]])
  }

  /** `dosen_seminar_detail`: guard, 404, access check, then the final score
      of the seminar's assessments as the filter lists them; missing marks
      are skipped in the sum but counted in the divisor. */
  function DosenSeminarDetail(u: User, seminars: map<nat, Seminar>, pk: nat,
                              assessments: map<nat, Assessment>, keys: seq<nat>,
                              konversi: real -> string): (r: Response<Option<Graded>>)
    requires IsSeminarFilter(assessments, pk, keys)
    ensures r.Ok? <==> u.dosenProfile.Some? && pk in seminars && CanView(seminars[pk], u.dosenProfile.value)
    ensures r.NotFound? <==> u.dosenProfile.Some? && pk !in seminars
    ensures u.dosenProfile.None? ==> r == Denied(NotDosenMessage)
    ensures r.Ok? ==> (r.value.None? <==> forall k :: k in assessments ==> assessments[k].seminar != pk)
    ensures r.Ok? && r.value.Some? ==>
      r.value.value.score == Round2(ZeroFilledMean(Marks(Listed(assessments, keys)))) &&
      r.value.value.grade == konversi(r.value.value.score)
  {
    match RequireDosen(u)
    case Ok(d) =>
      if pk !in seminars then NotFound
      else if !CanView(seminars[pk], d) then Denied("Anda tidak berhak mengakses seminar ini.")
      else
        var nilai := Marks(Listed(assessments, keys));
        var f := FinalScoreViews(nilai, konversi);
        if |keys| > 0 then
          assert assessments[keys[0]].seminar == pk;
          SumPresentIsZeroFilledSum(nilai);
          Ok(f)
        else Ok(f)
    case _ => Denied(NotDosenMessage)
  }

  /** Taking one key out of a list of distinct keys leaves distinct keys:
      all the others and not that one. */
  lemma RemoveKey(ks: seq<nat>, j: nat, rest: seq<nat>)
    requires DistinctKeys(ks) && j < |ks| && rest == ks[..j] + ks[j + 1..]
    ensures DistinctKeys(rest)
    ensures forall k :: k in rest <==> k in ks && k != ks[j]
  {
    assert forall i :: 0 <= i < |rest| ==> rest[i] == (if i < j then ks[i] else ks[i + 1]);
    forall k | k in ks && k != ks[j]
      ensures k in rest
    {
      var i :| 0 <= i < |ks| && ks[i] == k;
      assert rest[if i < j then i else i - 1] == k;
    }
  }

  /** The marks of a listing with one key taken out. */
  lemma ListedRemove(rows: map<nat, Assessment>, ks: seq<nat>, j: nat, rest: seq<nat>)
    requires forall i :: 0 <= i < |ks| ==> ks[i] in rows
    requires j < |ks| && rest == ks[..j] + ks[j + 1..]
    ensures forall i :: 0 <= i < |rest| ==> rest[i] in rows
    ensures Marks(Listed(rows, rest)) == Marks(Listed(rows, ks))[..j] + Marks(Listed(rows, ks))[j + 1..]
  {
  }

  /** Two listings of the same keys, each key once, give the same number of
      marks and the same sum of present marks. */
  lemma {:induction false} ListingSumsAgree(rows: map<nat, Assessment>, ks1: seq<nat>, ks2: seq<nat>)
    requires forall i :: 0 <= i < |ks1| ==> ks1[i] in rows
    requires forall i :: 0 <= i < |ks2| ==> ks2[i] in rows
    requires DistinctKeys(ks1) && DistinctKeys(ks2)
    requires forall k :: k in ks1 <==> k in ks2
    ensures |ks1| == |ks2|
    ensures SumPresent(Marks(Listed(rows, ks1))) == SumPresent(Marks(Listed(rows, ks2)))
    decreases |ks1|
  {
    if |ks1| == 0 {
      assert multiset(ks2) == multiset{} by {
        forall k
          ensures multiset(ks2)[k] == 0
        {
          assert k !in ks1;
        }
      }
      assert |ks2| == |multiset(ks2)| == 0;
      assert Marks(Listed(rows, ks1)) == [] && Marks(Listed(rows, ks2)) == [];
    } else {
      var n := |ks1| - 1;
      var x := ks1[n];
      assert x in ks2;
      var j :| 0 <= j < |ks2| && ks2[j] == x;
      var rest1 := ks1[..n] + ks1[n + 1..];
      var rest2 := ks2[..j] + ks2[j + 1..];
      RemoveKey(ks1, n, rest1);
      RemoveKey(ks2, j, rest2);
      ListedRemove(rows, ks1, n, rest1);
      ListedRemove(rows, ks2, j, rest2);
      assert forall k :: k in rest1 <==> k in rest2;
      ListingSumsAgree(rows, rest1, rest2);
      SumPresentRemove(Marks(Listed(rows, ks1)), n);
      SumPresentRemove(Marks(Listed(rows, ks2)), j);
    }
  }

  /** The database may return a seminar's assessments in any order: the
      detail page is the same for every order. */
  lemma DetailIgnoresListingOrder(u: User, seminars: map<nat, Seminar>, pk: nat,
                                  assessments: map<nat, Assessment>, keys1: seq<nat>, keys2: seq<nat>,
                                  konversi: real -> string)
    requires IsSeminarFilter(assessments, pk, keys1) && IsSeminarFilter(assessments, pk, keys2)
    ensures DosenSeminarDetail(u, seminars, pk, assessments, keys1, konversi) ==
            DosenSeminarDetail(u, seminars, pk, assessments, keys2, konversi)
  {
    ListingSumsAgree(assessments, keys1, keys2);
  }

  const PenilaianInvalidMessage: string := "Silakan periksa kembali nilai yang diinput."

  /** What a grading POST leads to: the assessment under its key, or the
      form shown again. */
  datatype Penilaian = NilaiSaved(id: nat) | NilaiInvalid(message: string)

  /** `dosen_seminar_penilaian` on POST, the form absent when it does not
      validate: only an examiner gets through; an invalid form changes
      nothing; otherwise the examiner's existing assessment of the seminar
      is updated, or a new one created, with the posted components and
      with seminar and examiner forced to this seminar and this lecturer.
      The numeric mark is the one `derive` gives for the components. At
      most one assessment per (seminar, examiner) is kept. */
  method DosenSeminarPenilaian(assessments: Table<Assessment>, u: User, seminars: map<nat, Seminar>, pk: nat,
                               existing: Option<nat>, form: Option<AssessmentForm>,
                               derive: AssessmentForm -> Option<real>)
    returns (r: Response<Penilaian>)
    requires assessments.Valid() && UniqueBy(assessments.rows, AssessmentKey)
    requires u.dosenProfile.Some? ==> IsExistingAssessment(assessments.rows, pk, u.dosenProfile.value, existing)
    modifies assessments
    ensures assessments.Valid() && UniqueBy(assessments.rows, AssessmentKey)
    ensures r.Ok? <==> u.dosenProfile.Some? && pk in seminars && CanGrade(seminars[pk], u.dosenProfile.value)
    ensures r.NotFound? <==> u.dosenProfile.Some? && pk !in seminars
    ensures r.Ok? ==> (r.value.NilaiSaved? <==> form.Some?)
    ensures r.Ok? && r.value.NilaiInvalid? ==> r.value.message == PenilaianInvalidMessage
    ensures !(r.Ok? && r.value.NilaiSaved?) ==> assessments.rows == old(assessments.rows)
    ensures r.Ok? && r.value.NilaiSaved? ==>
      form.Some? &&
      assessments.rows == old(assessments.rows)[r.value.id :=
        Assessment(pk, u.dosenProfile.value, form.value, derive(form.value))]
    ensures r.Ok? && r.value.NilaiSaved? && existing.Some? ==> r.value.id == existing.value
    ensures r.Ok? && r.value.NilaiSaved? && existing.None? ==> r.value.id !in old(assessments.rows)
  {
    var guard := RequireDosen(u);
    if !guard.Ok? {
      return Denied(guard.message);
    }
    var d := guard.value;
    if pk !in seminars {
      return NotFound;
    }
    if !CanGrade(seminars[pk], d) {
      return Denied("Anda bukan dosen penguji pada seminar ini.");
    }
    if form.None? {
      return Ok(NilaiInvalid(PenilaianInvalidMessage));
    }
    var posted := form.value;
    var obj: Assessment;
    if existing.Some? {
      obj := assessments.rows[existing.value];
      obj := obj.(form := posted);
    } else {
      obj := Assessment(pk, d, posted, None);
    }
    obj := obj.(seminar := pk);
    obj := obj.(penguji := d);
    obj := obj.(nilaiAngka := derive(obj.form));
    var id: nat;
    if existing.Some? {
      id := existing.value;
      WriteKeepsUnique(assessments.rows, AssessmentKey, id, obj);
      assessments.Update(id, obj);
    } else {
      id := assessments.Insert(obj);
      WriteKeepsUnique(old(assessments.rows), AssessmentKey, id, obj);
    }
    r := Ok(NilaiSaved(id));
  }

  // ---------------------------------------------------------------------
  // Coordinator: reviewing an application
  // ---------------------------------------------------------------------

  /** The lecturer with primary key `n` exists. */
  predicate DosenExists(dosens: map<DosenId, Dosen>, n: int)
  {
    0 <= n && n as nat in dosens
  }

  /** After the review: whether the posted advisor could not be used
      ("Dosen pembimbing tidak ditemukan."). */
  datatype ReviewResult = Reviewed(advisorNotFound: bool)

  /** `koordinator_pendaftaran_detail` on POST: the status changes only to
      one of the three codes; an advisor id that is present but malformed
      or unknown is reported and leaves the advisor alone, while the rest of
      the update still happens; the coordinator's note is always written;
      then the application is saved, which syncs the student when it is
      approved. The save never hits the uniqueness constraint, since
      student and period are untouched. */
  method KoordinatorPendaftaranDetail(apps: Table<Pendaftaran>, students: Table<Mahasiswa>, dosens: Table<Dosen>,
                                      u: User, pk: nat, postedStatus: Option<string>, postedDosen: PostedInt,
                                      catatan: string)
    returns (r: Response<ReviewResult>)
    requires apps.Valid() && UniqueBy(apps.rows, PendaftaranKey) && students.Valid()
    requires forall k :: k in apps.rows ==> apps.rows[k].mahasiswa in students.rows
    requires u.dosenProfile.Some? ==> u.dosenProfile.value in dosens.rows
    modifies apps, students
    ensures apps.Valid() && UniqueBy(apps.rows, PendaftaranKey) && students.Valid()
    ensures r.Ok? <==> RequireKoordinator(u, dosens.rows).Ok? && pk in old(apps.rows)
    ensures r.NotFound? <==> RequireKoordinator(u, dosens.rows).Ok? && pk !in old(apps.rows)
    ensures !r.Ok? ==> apps.rows == old(apps.rows) && students.rows == old(students.rows)
    ensures r.Ok? ==> (r.value.advisorNotFound <==>
      postedDosen.Malformed? || (postedDosen.Given? && !DosenExists(dosens.rows, postedDosen.n)))
    ensures r.Ok? ==> pk in apps.rows && apps.rows == old(apps.rows)[pk := apps.rows[pk]]
    ensures r.Ok? ==>
      var before := old(apps.rows)[pk];
      var after := apps.rows[pk];
      && after == before.(status := after.status, pembimbing := after.pembimbing, catatanKoordinator := catatan)
      && after.status == (if ParsePendaftaranStatus(postedStatus).Some? then ParsePendaftaranStatus(postedStatus).value else before.status)
      && after.pembimbing == (if postedDosen.Given? && DosenExists(dosens.rows, postedDosen.n) then Some(postedDosen.n as nat) else before.pembimbing)
      && (after.status == PendaftaranStatus.Disetujui ==>
            students.rows == old(students.rows)[after.mahasiswa := Synced(old(students.rows)[after.mahasiswa], after)])
      && (after.status != PendaftaranStatus.Disetujui ==> students.rows == old(students.rows))
  {
    var guard := RequireKoordinator(u, dosens.rows);
    if !guard.Ok? {
      return Denied(guard.message);
    }
    if pk !in apps.rows {
      return NotFound;
    }
    var p := apps.rows[pk];
    var parsed := ParsePendaftaranStatus(postedStatus);
    if parsed.Some? {
      p := p.(status := parsed.value);
    }
    var notFound := false;
    match postedDosen {
      case Missing =>
      case Malformed =>
        notFound := true;
      case Given(n) =>
        if DosenExists(dosens.rows, n) {
          p := p.(pembimbing := Some(n as nat));
        } else {
          notFound := true;
        }
    }
    p := p.(catatanKoordinator := catatan);
    assert PendaftaranKey(p) == PendaftaranKey(apps.rows[pk]);
    assert !TakenBy(apps.rows, PendaftaranKey, Some(pk), PendaftaranKey(p));
    var saved := SavePendaftaran(apps, students, Some(pk), p);
    assert saved.Saved?;
    r := Ok(Reviewed(notFound));
  }

  // ---------------------------------------------------------------------
  // Coordinator: mentoring quota
  // ---------------------------------------------------------------------

  datatype KuotaResult = KuotaUpdated | KuotaRejected(message: string)

  /** `koordinator_dosen_kuota` on POST: the quota is set to exactly the
      posted number when the lecturer exists and the number is a
      non-negative integer; otherwise nothing changes and one message
      reports the failure. */
  method KoordinatorDosenKuota(dosens: Table<Dosen>, u: User, postedId: PostedInt, postedKuota: PostedInt)
    returns (r: Response<KuotaResult>)
    requires dosens.Valid()
    requires u.dosenProfile.Some? ==> u.dosenProfile.value in dosens.rows
    modifies dosens
    ensures dosens.Valid()
    ensures r.Ok? <==> RequireKoordinator(u, old(dosens.rows)).Ok?
    ensures r == Ok(KuotaUpdated) <==>
      RequireKoordinator(u, old(dosens.rows)).Ok? && postedId.Given? && DosenExists(old(dosens.rows), postedId.n)
      && postedKuota.Given? && postedKuota.n >= 0
    ensures r == Ok(KuotaUpdated) ==>
      dosens.rows == old(dosens.rows)[postedId.n as nat := old(dosens.rows)[postedId.n as nat].(kuotaBimbingan := postedKuota.n as nat)]
    ensures r != Ok(KuotaUpdated) ==> dosens.rows == old(dosens.rows)
    ensures r.Ok? && r.value.KuotaRejected? ==>
      r.value.message == "Gagal memperbarui kuota. Pastikan dosen dan angka kuota valid."
  {
    var guard := RequireKoordinator(u, dosens.rows);
    if !guard.Ok? {
      return Denied(guard.message);
    }
    if !(postedId.Given? && DosenExists(dosens.rows, postedId.n)) {
      return Ok(KuotaRejected("Gagal memperbarui kuota. Pastikan dosen dan angka kuota valid."));
    }
    var id := postedId.n as nat;
    if !(postedKuota.Given? && postedKuota.n >= 0) {
      return Ok(KuotaRejected("Gagal memperbarui kuota. Pastikan dosen dan angka kuota valid."));
    }
    var target := dosens.rows[id];
    target := target.(kuotaBimbingan := postedKuota.n as nat);
    dosens.Update(id, target);
    r := Ok(KuotaUpdated);
  }

  // ---------------------------------------------------------------------
  // Coordinator: scheduling a seminar (the copy without conflict checks)
  // ---------------------------------------------------------------------

  const PenjadwalanInvalidMessage: string := "Silakan periksa kembali isian penjadwalan."

  /** What a scheduling POST leads to: the schedule is stored, or the form
      is shown again with its errors. */
  datatype Penjadwalan = JadwalSaved | JadwalInvalid(message: string, errors: seq<FormsSeminar.FormError>)

  /** `koordinator_seminar_detail` on POST: the scheduling form is bound to
      the seminar, so its examiner choices leave out that seminar's
      advisor. A valid form writes its examiner, date-time and room and sets
      DIJADWALKAN, whatever other seminars are booked then; the form's
      `dosen_penguji` is the first examiner field under its later name, and
      the second examiner, not on the form, is kept. An invalid form changes
      nothing. */
  method KoordinatorSeminarDetail(seminars: Table<Seminar>, dosens: map<DosenId, Dosen>, u: User, pk: nat,
                                  post: FormsSeminar.PenjadwalanPost)
    returns (r: Response<Penjadwalan>)
    requires seminars.Valid() && UniqueBy(seminars.rows, SeminarKey)
    requires u.dosenProfile.Some? ==> u.dosenProfile.value in dosens
    modifies seminars
    ensures seminars.Valid() && UniqueBy(seminars.rows, SeminarKey)
    ensures r.Ok? <==> RequireKoordinator(u, dosens).Ok? && pk in old(seminars.rows)
    ensures !(r.Ok? && r.value.JadwalSaved?) ==> seminars.rows == old(seminars.rows)
    ensures r.Ok? ==>
      (r.value.JadwalSaved? <==> FormsSeminar.Clean(post, dosens.Keys, old(seminars.rows)[pk].pembimbing).errors == [])
    ensures r.Ok? && r.value.JadwalInvalid? ==>
      r.value.message == PenjadwalanInvalidMessage &&
      r.value.errors == FormsSeminar.Clean(post, dosens.Keys, old(seminars.rows)[pk].pembimbing).errors
    ensures r.Ok? && r.value.JadwalSaved? ==>
      var s := old(seminars.rows)[pk];
      var penguji := FormsSeminar.ParseId(post.dosenPenguji);
      penguji.Some? && penguji.value in dosens && penguji != s.pembimbing &&
      post.jadwal.Some? && post.ruang in FormsSeminar.RuangSeminarChoices &&
      seminars.rows == old(seminars.rows)[pk := Scheduled(s, penguji, s.penguji2, post.jadwal, post.ruang)]
  {
    var guard := RequireKoordinator(u, dosens);
    if !guard.Ok? {
      return Denied(guard.message);
    }
    if pk !in seminars.rows {
      return NotFound;
    }
    var s := seminars.rows[pk];
    var form := FormsSeminar.Clean(post, dosens.Keys, s.pembimbing);
    if form.errors != [] {
      return Ok(JadwalInvalid(PenjadwalanInvalidMessage, form.errors));
    }
    FormsSeminar.AcceptedScheduleIsSound(post, dosens.Keys, s.pembimbing);
    var data := form.data;
    s := s.(penguji1 := data.dosenPenguji, jadwal := data.jadwal, ruang := data.ruang.value);
    s := s.(status := SeminarStatus.Dijadwalkan);
    WriteKeepsUnique(seminars.rows, SeminarKey, pk, s);
    seminars.Update(pk, s);
    r := Ok(JadwalSaved);
  }
}
