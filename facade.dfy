/** The older copies of the views kept in the facade module: scheduling a
    seminar with room and examiner conflict checks, the final score that
    does not tolerate a missing mark, mentoring-session creation, and the
    seminar registration that asks for six DONE sessions. */
module Facade {
  import opened Common
  import opened MasterData
  import opened Auth
  import opened Guidance
  import opened Scores
  import opened ViewsDosen
  import opened ViewsMahasiswa

  // ---------------------------------------------------------------------
  // Conflicts between seminars
  // ---------------------------------------------------------------------

  /** Another seminar (not `self`) is booked at exactly the same date-time
      (both unset counts as the same) in the same room. */
  predicate RoomConflict(rows: map<nat, Seminar>, self: nat, jadwal: Option<DateTime>, ruang: string)
  {
    exists k :: k in rows && k != self && rows[k].jadwal == jadwal && rows[k].ruang == ruang
  }

  /** `x__in=[d1, d2]`: an unset column never matches, and an unset
      submitted examiner matches nothing. */
  predicate ExaminerIn(x: Option<DosenId>, d1: Option<DosenId>, d2: Option<DosenId>)
  {
    x.Some? && (x == d1 || x == d2)
  }

  /** Another seminar (not `self`) at the same date-time has one of the
      submitted examiners as its first or second examiner. */
  predicate ExaminerConflict(rows: map<nat, Seminar>, self: nat, jadwal: Option<DateTime>,
                             d1: Option<DosenId>, d2: Option<DosenId>)
  {
    exists k :: k in rows && k != self && rows[k].jadwal == jadwal &&
      (ExaminerIn(rows[k].penguji1, d1, d2) || ExaminerIn(rows[k].penguji2, d1, d2))
  }

  /** No two scheduled seminars share date-time and room. */
  ghost predicate RoomExclusive(rows: map<nat, Seminar>)
  {
    forall a, b :: a in rows && b in rows && a != b && rows[a].jadwal.Some? && rows[a].jadwal == rows[b].jadwal ==>
      rows[a].ruang != rows[b].ruang
  }

  /** No lecturer examines two seminars scheduled at the same date-time. */
  ghost predicate ExaminerExclusive(rows: map<nat, Seminar>)
  {
    forall a, b, d :: a in rows && b in rows && a != b && rows[a].jadwal.Some? && rows[a].jadwal == rows[b].jadwal ==>
      !(CanGrade(rows[a], d) && CanGrade(rows[b], d))
  }

  /** Both checks ignore the seminar being edited: whatever it holds now
      has no bearing on whether it conflicts. */
  lemma ConflictsIgnoreSelf(rows: map<nat, Seminar>, pk: nat, s: Seminar, jadwal: Option<DateTime>, ruang: string,
                            d1: Option<DosenId>, d2: Option<DosenId>)
    ensures RoomConflict(rows[pk := s], pk, jadwal, ruang) == RoomConflict(rows, pk, jadwal, ruang)
    ensures ExaminerConflict(rows[pk := s], pk, jadwal, d1, d2) == ExaminerConflict(rows, pk, jadwal, d1, d2)
  {
    var r := rows[pk := s];
    forall k | k != pk
      ensures (k in r <==> k in rows) && (k in rows ==> r[k] == rows[k])
    {
    }
    if RoomConflict(rows, pk, jadwal, ruang) {
      var k :| k in rows && k != pk && rows[k].jadwal == jadwal && rows[k].ruang == ruang;
      assert k in r && r[k] == rows[k];
    }
    if ExaminerConflict(rows, pk, jadwal, d1, d2) {
      var k :| k in rows && k != pk && rows[k].jadwal == jadwal &&
        (ExaminerIn(rows[k].penguji1, d1, d2) || ExaminerIn(rows[k].penguji2, d1, d2));
      assert k in r && r[k] == rows[k];
    }
  }

  /** Re-submitting a seminar's current schedule in a conflict-free table
      never conflicts, because the seminar itself is excluded. */
  lemma ResubmittingOwnScheduleNeverConflicts(rows: map<nat, Seminar>, pk: nat)
    requires pk in rows && rows[pk].jadwal.Some?
    requires RoomExclusive(rows) && ExaminerExclusive(rows)
    ensures !RoomConflict(rows, pk, rows[pk].jadwal, rows[pk].ruang)
    ensures !ExaminerConflict(rows, pk, rows[pk].jadwal, rows[pk].penguji1, rows[pk].penguji2)
  {
    var s := rows[pk];
    forall k | k in rows && k != pk && rows[k].jadwal == s.jadwal
      ensures rows[k].ruang != s.ruang
      ensures !ExaminerIn(rows[k].penguji1, s.penguji1, s.penguji2)
      ensures !ExaminerIn(rows[k].penguji2, s.penguji1, s.penguji2)
    {
      assert rows[pk].ruang != rows[k].ruang;
      if rows[k].penguji1.Some? {
        assert !(CanGrade(rows[pk], rows[k].penguji1.value) && CanGrade(rows[k], rows[k].penguji1.value));
      }
      if rows[k].penguji2.Some? {
        assert !(CanGrade(rows[pk], rows[k].penguji2.value) && CanGrade(rows[k], rows[k].penguji2.value));
      }
    }
  }

  /** Writing a schedule that has no room conflict keeps rooms exclusive. */
  lemma ScheduleKeepsRoomExclusive(rows: map<nat, Seminar>, pk: nat, s: Seminar)
    requires !RoomConflict(rows, pk, s.jadwal, s.ruang)
    ensures RoomExclusive(rows) ==> RoomExclusive(rows[pk := s])
  {
    var r := rows[pk := s];
    if RoomExclusive(rows) {
      forall a, b | a in r && b in r && a != b && r[a].jadwal.Some? && r[a].jadwal == r[b].jadwal
        ensures r[a].ruang != r[b].ruang
      {
        if a == pk {
          assert b in rows && b != pk && rows[b].jadwal == s.jadwal;
        } else if b == pk {
          assert a in rows && a != pk && rows[a].jadwal == s.jadwal;
        }
      }
    }
  }

  /** Writing a schedule that has no examiner conflict keeps examiners
      exclusive. */
  lemma ScheduleKeepsExaminerExclusive(rows: map<nat, Seminar>, pk: nat, s: Seminar)
    requires !ExaminerConflict(rows, pk, s.jadwal, s.penguji1, s.penguji2)
    ensures ExaminerExclusive(rows) ==> ExaminerExclusive(rows[pk := s])
  {
    var r := rows[pk := s];
    if ExaminerExclusive(rows) {
      forall a, b, d | a in r && b in r && a != b && r[a].jadwal.Some? && r[a].jadwal == r[b].jadwal
        ensures !(CanGrade(r[a], d) && CanGrade(r[b], d))
      {
        if a == pk {
          assert b in rows && b != pk && rows[b].jadwal == s.jadwal;
          assert !ExaminerIn(rows[b].penguji1, s.penguji1, s.penguji2) && !ExaminerIn(rows[b].penguji2, s.penguji1, s.penguji2);
        } else if b == pk {
          assert a in rows && a != pk && rows[a].jadwal == s.jadwal;
          assert !ExaminerIn(rows[a].penguji1, s.penguji1, s.penguji2) && !ExaminerIn(rows[a].penguji2, s.penguji1, s.penguji2);
        }
      }
    }
  }

  /** The scheduling copy without checks double-books: as soon as another
      seminar holds the submitted room, or one of the submitted examiners,
      at the submitted date-time, the table it writes is no longer
      exclusive. */
  lemma UncheckedSchedulingDoubleBooks(rows: map<nat, Seminar>, pk: nat, d1: Option<DosenId>, d2: Option<DosenId>,
                                       jadwal: Option<DateTime>, ruang: string)
    requires pk in rows && jadwal.Some?
    ensures RoomConflict(rows, pk, jadwal, ruang) ==>
      !RoomExclusive(rows[pk := Scheduled(rows[pk], d1, d2, jadwal, ruang)])
    ensures ExaminerConflict(rows, pk, jadwal, d1, d2) ==>
      !ExaminerExclusive(rows[pk := Scheduled(rows[pk], d1, d2, jadwal, ruang)])
  {
    var s := Scheduled(rows[pk], d1, d2, jadwal, ruang);
    var r := rows[pk := s];
    if RoomConflict(rows, pk, jadwal, ruang) {
      var k :| k in rows && k != pk && rows[k].jadwal == jadwal && rows[k].ruang == ruang;
      assert r[pk].jadwal == r[k].jadwal && r[pk].ruang == r[k].ruang;
    }
    if ExaminerConflict(rows, pk, jadwal, d1, d2) {
      var k :| k in rows && k != pk && rows[k].jadwal == jadwal &&
        (ExaminerIn(rows[k].penguji1, d1, d2) || ExaminerIn(rows[k].penguji2, d1, d2));
      var d := if ExaminerIn(rows[k].penguji1, d1, d2) then rows[k].penguji1.value else rows[k].penguji2.value;
      assert CanGrade(r[pk], d) && CanGrade(r[k], d);
    }
  }

  // ---------------------------------------------------------------------
  // Scheduling with conflict checks
  // ---------------------------------------------------------------------

  datatype ScheduleError = RoomTaken | ExaminerBusy

  /** The form error each conflict adds: the room one on the `ruang` field,
      the examiner one as a non-field error. */
  function ScheduleErrorMessage(e: ScheduleError): string
  {
    match e
    case RoomTaken => "Ruang ini sudah digunakan untuk seminar lain pada jam tersebut."
    case ExaminerBusy => "Salah satu dosen penguji sudah dijadwalkan menguji mahasiswa lain pada jam tersebut."
  }

  datatype ScheduleResult = ScheduleSaved | ScheduleRejected(errors: seq<ScheduleError>)

  /** `koordinator_seminar_detail` of the facade, on POST with a valid
      scheduling form: both conflicts are checked against every other
      seminar and every conflict found is reported; with any conflict
      nothing is written; otherwise only this seminar changes, taking the
      submitted examiners, date-time and room and status DIJADWALKAN.
      Conflict-free tables stay conflict-free. */
  method KoordinatorSeminarDetail(seminars: Table<Seminar>, dosens: map<DosenId, Dosen>, u: User, pk: nat,
                                  d1: Option<DosenId>, d2: Option<DosenId>, jadwal: Option<DateTime>, ruang: string)
    returns (r: Response<ScheduleResult>)
    requires seminars.Valid() && UniqueBy(seminars.rows, SeminarKey)
    requires u.dosenProfile.Some? ==> u.dosenProfile.value in dosens
    modifies seminars
    ensures seminars.Valid() && UniqueBy(seminars.rows, SeminarKey)
    ensures r.Ok? <==> RequireKoordinator(u, dosens).Ok? && pk in old(seminars.rows)
    ensures r.Ok? ==> (r.value.ScheduleSaved? <==>
      !RoomConflict(old(seminars.rows), pk, jadwal, ruang) && !ExaminerConflict(old(seminars.rows), pk, jadwal, d1, d2))
    ensures r.Ok? && r.value.ScheduleRejected? ==>
      && (RoomTaken in r.value.errors <==> RoomConflict(old(seminars.rows), pk, jadwal, ruang))
      && (ExaminerBusy in r.value.errors <==> ExaminerConflict(old(seminars.rows), pk, jadwal, d1, d2))
      && |r.value.errors| == (if RoomTaken in r.value.errors then 1 else 0) + (if ExaminerBusy in r.value.errors then 1 else 0)
    ensures !(r.Ok? && r.value.ScheduleSaved?) ==> seminars.rows == old(seminars.rows)
    ensures r.Ok? && r.value.ScheduleSaved? ==>
      seminars.rows == old(seminars.rows)[pk := Scheduled(old(seminars.rows)[pk], d1, d2, jadwal, ruang)]
    ensures RoomExclusive(old(seminars.rows)) ==> RoomExclusive(seminars.rows)
    ensures ExaminerExclusive(old(seminars.rows)) ==> ExaminerExclusive(seminars.rows)
  {
    var guard := RequireKoordinator(u, dosens);
    if !guard.Ok? {
      return Denied(guard.message);
    }
    if pk !in seminars.rows {
      return NotFound;
    }
    var conflictRuang := RoomConflict(seminars.rows, pk, jadwal, ruang);
    var conflictDosen := ExaminerConflict(seminars.rows, pk, jadwal, d1, d2);
    var errors: seq<ScheduleError> := [];
    if conflictRuang {
      errors := errors + [RoomTaken];
    }
    if conflictDosen {
      errors := errors + [ExaminerBusy];
    }
    if conflictRuang || conflictDosen {
      return Ok(ScheduleRejected(errors));
    }
    var s := seminars.rows[pk];
    s := s.(penguji1 := d1, penguji2 := d2, jadwal := jadwal, ruang := ruang);
    s := s.(status := SeminarStatus.Dijadwalkan);
    ScheduleKeepsRoomExclusive(seminars.rows, pk, s);
    ScheduleKeepsExaminerExclusive(seminars.rows, pk, s);
    WriteKeepsUnique(seminars.rows, SeminarKey, pk, s);
    seminars.Update(pk, s);
    r := Ok(ScheduleSaved);
  }

  // ---------------------------------------------------------------------
  // Final score
  // ---------------------------------------------------------------------

  /** `dosen_seminar_detail` of the facade: the same guard and access check
      as the lecturer views, with a final score that fails on a missing
      mark. */
  function DosenSeminarDetail(u: User, seminars: map<nat, Seminar>, pk: nat,
                              assessments: map<nat, Assessment>, keys: seq<nat>,
                              konversi: real -> string): (r: Response<FacadeScore>)
    requires IsSeminarFilter(assessments, pk, keys)
    ensures r.Ok? <==> u.dosenProfile.Some? && pk in seminars && CanView(seminars[pk], u.dosenProfile.value)
    ensures r.NotFound? <==> u.dosenProfile.Some? && pk !in seminars
    ensures r.Ok? ==> (r.value.NoScore? <==> forall k :: k in assessments ==> assessments[k].seminar != pk)
    ensures r.Ok? ==> (r.value.TypeError? <==>
      exists k :: k in assessments && assessments[k].seminar == pk && assessments[k].nilaiAngka.None?)
    ensures r.Ok? && r.value.Score? ==>
      ViewsDosen.DosenSeminarDetail(u, seminars, pk, assessments, keys, konversi) == Ok(Some(r.value.graded))
  {
    match RequireDosen(u)
    case Ok(d) =>
      if pk !in seminars then NotFound
      else if !CanView(seminars[pk], d) then Denied("Anda tidak berhak mengakses seminar ini.")
      else
        var nilai := Marks(Listed(assessments, keys));
        var f := FinalScoreFacade(nilai, konversi);
        assert |keys| > 0 ==> assessments[keys[0]].seminar == pk;
        assert !AllPresent(nilai) <==>
          exists k :: k in assessments && assessments[k].seminar == pk && assessments[k].nilaiAngka.None? by {
          if !AllPresent(nilai) {
            var i :| 0 <= i < |nilai| && nilai[i].None?;
            assert assessments[keys[i]].nilaiAngka.None?;
          }
          if exists k :: k in assessments && assessments[k].seminar == pk && assessments[k].nilaiAngka.None? {
            var k :| k in assessments && assessments[k].seminar == pk && assessments[k].nilaiAngka.None?;
            var i :| 0 <= i < |keys| && keys[i] == k;
            assert nilai[i].None?;
          }
        }
        if f.Score? then
          FinalScoresAgreeWhenComplete(nilai, konversi);
          Ok(f)
        else Ok(f)
    case _ => Denied(NotDosenMessage)
  }

  // ---------------------------------------------------------------------
  // Mentoring sessions
  // ---------------------------------------------------------------------

  /** `mahasiswa_guidance_create` of the facade: the same rule as the
      student views (refused without an advisor, otherwise a PLANNED
      session of the student's advisor and period), with its own message. */
  method MahasiswaGuidanceCreate(sessions: Table<GuidanceSession>, students: Table<Mahasiswa>,
                                 u: User, form: Option<GuidanceForm>)
    returns (r: Response<Outcome>)
    requires sessions.Valid()
    requires u.mahasiswaProfile.Some? ==> u.mahasiswaProfile.value in students.rows
    modifies sessions
    ensures sessions.Valid()
    ensures r.Ok? <==> u.mahasiswaProfile.Some?
    ensures r.Ok? ==> (r.value.Refused? <==> students.rows[u.mahasiswaProfile.value].pembimbing.None?)
    ensures r.Ok? && r.value.Refused? ==>
      r.value.message == "Dosen pembimbing PKL belum ditetapkan. Silakan hubungi koordinator PKL."
    ensures r.Ok? && !r.value.Refused? ==> (r.value.Submitted? <==> form.Some?) && (r.value.Submitted? || r.value.FormInvalid?)
    ensures !(r.Ok? && r.value.Submitted?) ==> sessions.rows == old(sessions.rows)
    ensures r.Ok? && r.value.Submitted? ==>
      var mhs := u.mahasiswaProfile.value;
      sessions.rows == old(sessions.rows)[r.value.id := FromGuidanceForm(form.value).(
        mahasiswa := mhs, dosenPembimbing := students.rows[mhs].pembimbing,
        periode := students.rows[mhs].periode, status := Planned)]
  {
    var guard := RequireMahasiswa(u);
    if !guard.Ok? {
      return Denied(guard.message);
    }
    var mhs := guard.value;
    if students.rows[mhs].pembimbing.None? {
      return Ok(Refused("Dosen pembimbing PKL belum ditetapkan. Silakan hubungi koordinator PKL."));
    }
    if form.None? {
      return Ok(FormInvalid);
    }
    var id := CreateGuidanceSession(sessions, students, mhs, form.value);
    r := Ok(Submitted(id));
  }

  // ---------------------------------------------------------------------
  // Result seminar registration
  // ---------------------------------------------------------------------

  /** The number of DONE sessions this copy asks for. */
  const MinimalBimbinganFacade: nat := 6

  const FacadeNotEligibleMessage: string :=
    "Anda belum memenuhi syarat pendaftaran seminar hasil PKL (minimal 6x bimbingan selesai dan sudah ada dosen pembimbing & periode PKL)."

  /** Six DONE sessions, an advisor and a period. */
  predicate FacadeEligible(sessions: map<nat, GuidanceSession>, mhs: MahasiswaId, m: Mahasiswa)
  {
    Eligible(sessions, mhs, MinimalBimbinganFacade) && m.pembimbing.Some? && m.periode.Some?
  }

  /** `latest` is what the facade looks up: the student's latest seminar of
      the student's own period, and nothing when the student has no period. */
  ghost predicate IsFacadeLatest(rows: map<nat, Seminar>, mhs: MahasiswaId, m: Mahasiswa, latest: Option<nat>)
  {
    if m.periode.Some? then IsLatestSeminar(rows, mhs, m.periode, latest) else latest.None?
  }

  /** The row the facade looks up holds the student's (student, period) key,
      so writing the registration onto it, or inserting one when there is
      none, never clashes with another seminar. */
  lemma FacadeLookupNeverClashes(rows: map<nat, Seminar>, mhs: MahasiswaId, m: Mahasiswa, latest: Option<nat>)
    requires UniqueBy(rows, SeminarKey) && m.periode.Some? && IsFacadeLatest(rows, mhs, m, latest)
    ensures !TakenBy(rows, SeminarKey, latest, (mhs, m.periode.value))
  {
    forall j | j in rows && Some(j) != latest
      ensures SeminarKey(rows[j]) != (mhs, m.periode.value)
    {
      if latest.Some? {
        assert SeminarKey(rows[latest.value]) == (mhs, m.periode.value);
      } else {
        assert !SeminarOf(rows[j], mhs, m.periode);
      }
    }
  }

  /** `mahasiswa_seminar_pendaftaran` of the facade, as written: refused
      unless eligible; an eligible student's valid form is always saved,
      since the lock it computes is never consulted on POST. */
  method MahasiswaSeminarPendaftaran(seminars: Table<Seminar>, sessions: map<nat, GuidanceSession>,
                                     students: map<MahasiswaId, Mahasiswa>, u: User, latest: Option<nat>,
                                     form: Option<SeminarForm>, now: DateTime)
    returns (r: Response<Outcome>)
    requires seminars.Valid() && UniqueBy(seminars.rows, SeminarKey)
    requires u.mahasiswaProfile.Some? ==>
      u.mahasiswaProfile.value in students &&
      IsFacadeLatest(seminars.rows, u.mahasiswaProfile.value, students[u.mahasiswaProfile.value], latest)
    modifies seminars
    ensures seminars.Valid() && UniqueBy(seminars.rows, SeminarKey)
    ensures r.Ok? <==> u.mahasiswaProfile.Some?
    ensures r.Ok? ==> (r.value == Refused(FacadeNotEligibleMessage) <==>
      !FacadeEligible(sessions, u.mahasiswaProfile.value, students[u.mahasiswaProfile.value]))
    ensures r.Ok? ==> (r.value.Submitted? <==>
      FacadeEligible(sessions, u.mahasiswaProfile.value, students[u.mahasiswaProfile.value]) && form.Some?)
    ensures r.Ok? ==> !r.value.DatabaseError?
    ensures !(r.Ok? && r.value.Submitted?) ==> seminars.rows == old(seminars.rows)
    ensures r.Ok? && r.value.Submitted? ==>
      var mhs := u.mahasiswaProfile.value;
      var base := if latest.Some? then old(seminars.rows)[latest.value] else BlankSeminar(now);
      && form.Some? && students[mhs].periode.Some?
      && seminars.rows == old(seminars.rows)[r.value.id := SubmittedSeminar(base, form.value, mhs, students[mhs])]
  {
    var guard := RequireMahasiswa(u);
    if !guard.Ok? {
      return Denied(guard.message);
    }
    var mhs := guard.value;
    var m := students[mhs];
    var jumlahBimbinganSelesai := CountDone(sessions, mhs);
    var eligible := jumlahBimbinganSelesai >= MinimalBimbinganFacade && m.pembimbing.Some? && m.periode.Some?;
    if !eligible {
      return Ok(Refused(FacadeNotEligibleMessage));
    }
    if form.None? {
      return Ok(FormInvalid);
    }
    FacadeLookupNeverClashes(seminars.rows, mhs, m, latest);
    var outcome := SubmitSeminar(seminars, mhs, m, latest, form.value, now);
    r := Ok(outcome);
  }

  /** What the facade's registration does to a seminar that was already
      scheduled, held or rejected: it is sent back to DIKIRIM, so the lock
      the page shows does not hold. */
  lemma FacadeReopensLockedSeminar(base: Seminar, f: SeminarForm, mhs: MahasiswaId, m: Mahasiswa)
    requires m.periode.Some? && SeminarLocked(Some(base))
    ensures !SeminarLocked(Some(SubmittedSeminar(base, f, mhs, m)))
    ensures SubmittedSeminar(base, f, mhs, m).status == SeminarStatus.Dikirim != base.status
  {
  }

  /** The facade's registration with the lock it computes enforced: as
      before, but a student whose seminar has left DIKIRIM is refused and
      that seminar is left as it is. */
  method MahasiswaSeminarPendaftaranLocked(seminars: Table<Seminar>, sessions: map<nat, GuidanceSession>,
                                           students: map<MahasiswaId, Mahasiswa>, u: User, latest: Option<nat>,
                                           form: Option<SeminarForm>, now: DateTime)
    returns (r: Response<Outcome>)
    requires seminars.Valid() && UniqueBy(seminars.rows, SeminarKey)
    requires u.mahasiswaProfile.Some? ==>
      u.mahasiswaProfile.value in students &&
      IsFacadeLatest(seminars.rows, u.mahasiswaProfile.value, students[u.mahasiswaProfile.value], latest)
    modifies seminars
    ensures seminars.Valid() && UniqueBy(seminars.rows, SeminarKey)
    ensures r.Ok? <==> u.mahasiswaProfile.Some?
    ensures r.Ok? ==> (r.value == Refused(FacadeNotEligibleMessage) <==>
      !FacadeEligible(sessions, u.mahasiswaProfile.value, students[u.mahasiswaProfile.value]))
    ensures r.Ok? ==> (r.value == Refused(SeminarLockedMessage) <==>
      FacadeEligible(sessions, u.mahasiswaProfile.value, students[u.mahasiswaProfile.value]) &&
      latest.Some? && SeminarLocked(Some(old(seminars.rows)[latest.value])))
    ensures r.Ok? ==> !r.value.DatabaseError?
    ensures latest.Some? && latest.value in old(seminars.rows) && SeminarLocked(Some(old(seminars.rows)[latest.value])) ==>
      seminars.rows == old(seminars.rows)
    ensures !(r.Ok? && r.value.Submitted?) ==> seminars.rows == old(seminars.rows)
    ensures r.Ok? && r.value.Submitted? ==>
      var mhs := u.mahasiswaProfile.value;
      var base := if latest.Some? then old(seminars.rows)[latest.value] else BlankSeminar(now);
      && !SeminarLocked(if latest.Some? then Some(base) else None)
      && form.Some? && students[mhs].periode.Some?
      && seminars.rows == old(seminars.rows)[r.value.id := SubmittedSeminar(base, form.value, mhs, students[mhs])]
  {
    var guard := RequireMahasiswa(u);
    if !guard.Ok? {
      return Denied(guard.message);
    }
    var mhs := guard.value;
    var m := students[mhs];
    var jumlahBimbinganSelesai := CountDone(sessions, mhs);
    var eligible := jumlahBimbinganSelesai >= MinimalBimbinganFacade && m.pembimbing.Some? && m.periode.Some?;
    var isLocked := latest.Some? && seminars.rows[latest.value].status != SeminarStatus.Dikirim;
    if !eligible {
      return Ok(Refused(FacadeNotEligibleMessage));
    }
    if isLocked {
      return Ok(Refused(SeminarLockedMessage));
    }
    if form.None? {
      return Ok(FormInvalid);
    }
    FacadeLookupNeverClashes(seminars.rows, mhs, m, latest);
    var outcome := SubmitSeminar(seminars, mhs, m, latest, form.value, now);
    r := Ok(outcome);
  }
}
