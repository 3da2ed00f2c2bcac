/** The student views: adding a logbook entry, asking for a mentoring
    session, submitting the internship application and registering for the
    result seminar. Each POST either refuses with a message and saves
    nothing, or fixes the fields the student may not choose and saves. */
module ViewsMahasiswa {
  import opened Common
  import opened MasterData
  import opened Auth
  import opened Guidance
  import opened Logbook

  const NotMahasiswaMessage: string := "Akun ini tidak terhubung dengan data Mahasiswa."

  /** `_require_mahasiswa`: the account's student, or a refusal. */
  function RequireMahasiswa(u: User): (r: Response<MahasiswaId>)
    ensures r.Ok? <==> u.mahasiswaProfile.Some?
    ensures r.Ok? ==> r.value == u.mahasiswaProfile.value
    ensures !r.Ok? ==> r == Denied(NotMahasiswaMessage)
  {
    if u.mahasiswaProfile.None? then Denied(NotMahasiswaMessage) else Ok(u.mahasiswaProfile.value)
  }

  /** What a student's POST comes to: refused with a message, a form that
      does not validate, a saved row, or a save the database refuses. */
  datatype Outcome = Refused(message: string) | FormInvalid | Submitted(id: nat) | DatabaseError

  // ---------------------------------------------------------------------
  // Logbook
  // ---------------------------------------------------------------------

  /** The fields a student fills in on a logbook entry. */
  datatype LogbookForm = LogbookForm(
    tanggal: Date,
    jamMulai: Option<Time>,
    jamSelesai: Option<Time>,
    aktivitas: string,
    toolsYangDigunakan: string,
    output: string)

  /** `mahasiswa_logbook_add` on POST: a valid form becomes a new entry of
      this student, sent to the student's advisor for the student's period
      with status SUBMIT; an invalid form saves nothing. */
  method MahasiswaLogbookAdd(entries: Table<LogbookEntry>, students: map<MahasiswaId, Mahasiswa>,
                             u: User, form: Option<LogbookForm>)
    returns (r: Response<Outcome>)
    requires entries.Valid()
    requires u.mahasiswaProfile.Some? ==> u.mahasiswaProfile.value in students
    modifies entries
    ensures entries.Valid()
    ensures r.Ok? <==> u.mahasiswaProfile.Some?
    ensures r.Ok? ==> (r.value.Submitted? <==> form.Some?) && (r.value.Submitted? || r.value.FormInvalid?)
    ensures !(r.Ok? && r.value.Submitted?) ==> entries.rows == old(entries.rows)
    ensures r.Ok? && r.value.Submitted? ==>
      var mhs := u.mahasiswaProfile.value;
      var f := form.value;
      && r.value.id !in old(entries.rows)
      && entries.rows == old(entries.rows)[r.value.id := LogbookEntry(
           mhs, students[mhs].pembimbing, students[mhs].periode, f.tanggal, f.jamMulai, f.jamSelesai,
           f.aktivitas, f.toolsYangDigunakan, f.output, Submit, "")]
  {
    var guard := RequireMahasiswa(u);
    if !guard.Ok? {
      return Denied(guard.message);
    }
    if form.None? {
      return Ok(FormInvalid);
    }
    var mhs := guard.value;
    var f := form.value;
    var entry := LogbookEntry(0, None, None, f.tanggal, f.jamMulai, f.jamSelesai,
                              f.aktivitas, f.toolsYangDigunakan, f.output, DefaultLogbookStatus, "");
    entry := entry.(mahasiswa := mhs);
    entry := entry.(dosenPembimbing := students[mhs].pembimbing);
    entry := entry.(periode := students[mhs].periode);
    entry := entry.(status := Submit);
    var id := entries.Insert(entry);
    r := Ok(Submitted(id));
  }

  // ---------------------------------------------------------------------
  // Mentoring sessions
  // ---------------------------------------------------------------------

  /** The fields a student fills in when asking for a mentoring session. */
  datatype GuidanceForm = GuidanceForm(
    pertemuanKe: Option<nat>,
    tanggal: Date,
    jamMulai: Option<Time>,
    jamSelesai: Option<Time>,
    metode: Metode,
    platform: Option<string>,
    topik: string,
    ringkasanDiskusi: string,
    tindakLanjut: Option<string>)

  /** The unsaved session a valid form builds: no student, advisor or
      period yet, and the default status. */
  function FromGuidanceForm(f: GuidanceForm): (s: GuidanceSession)
    ensures s.status == Planned && s.dosenPembimbing.None? && s.periode.None?
    ensures s.topik == f.topik && s.tanggal == f.tanggal && s.metode == f.metode
  {
    GuidanceSession(0, None, None, f.pertemuanKe, f.tanggal, f.jamMulai, f.jamSelesai, f.metode,
                    f.platform, f.topik, f.ringkasanDiskusi, f.tindakLanjut, DefaultGuidanceStatus)
  }

  /** The accepted path shared by both copies of `mahasiswa_guidance_create`:
      the session belongs to the student, goes to the student's advisor in
      the student's period, and is PLANNED. The save hook then has nothing
      left to fill. No student's count of DONE sessions changes. */
  method CreateGuidanceSession(sessions: Table<GuidanceSession>, students: Table<Mahasiswa>,
                               mhs: MahasiswaId, f: GuidanceForm)
    returns (id: nat)
    requires sessions.Valid() && mhs in students.rows && students.rows[mhs].pembimbing.Some?
    modifies sessions
    ensures sessions.Valid() && id !in old(sessions.rows)
    ensures sessions.rows == old(sessions.rows)[id := FromGuidanceForm(f).(
      mahasiswa := mhs, dosenPembimbing := students.rows[mhs].pembimbing,
      periode := students.rows[mhs].periode, status := Planned)]
    ensures forall x :: CountDone(sessions.rows, x) == CountDone(old(sessions.rows), x)
  {
    var m := students.rows[mhs];
    var obj := FromGuidanceForm(f);
    obj := obj.(mahasiswa := mhs);
    obj := obj.(dosenPembimbing := m.pembimbing);
    obj := obj.(periode := m.periode);
    obj := obj.(status := Planned);
    var saved;
    id, saved := SaveSession(sessions, students, None, obj);
    forall x
      ensures CountDone(sessions.rows, x) == CountDone(old(sessions.rows), x)
    {
      NewNotDoneKeepsCount(old(sessions.rows), id, saved, x);
    }
  }

  /** `mahasiswa_guidance_create` on POST: refused while the student has no
      advisor; otherwise a valid form creates a PLANNED session. */
  method MahasiswaGuidanceCreate(sessions: Table<GuidanceSession>, students: Table<Mahasiswa>,
                                 u: User, form: Option<GuidanceForm>)
    returns (r: Response<Outcome>)
    requires sessions.Valid()
    requires u.mahasiswaProfile.Some? ==> u.mahasiswaProfile.value in students.rows
    modifies sessions
    ensures sessions.Valid()
    ensures r.Ok? <==> u.mahasiswaProfile.Some?
    ensures r.Ok? ==> (r.value.Refused? <==> students.rows[u.mahasiswaProfile.value].pembimbing.None?)
    ensures r.Ok? && r.value.Refused? ==>
      r.value.message == "Anda belum memiliki dosen pembimbing PKL. Silakan hubungi koordinator PKL terlebih dahulu."
    ensures r.Ok? && !r.value.Refused? ==> (r.value.Submitted? <==> form.Some?) && (r.value.Submitted? || r.value.FormInvalid?)
    ensures !(r.Ok? && r.value.Submitted?) ==> sessions.rows == old(sessions.rows)
    ensures r.Ok? && r.value.Submitted? ==>
      var mhs := u.mahasiswaProfile.value;
      sessions.rows == old(sessions.rows)[r.value.id := FromGuidanceForm(form.value).(
        mahasiswa := mhs, dosenPembimbing := students.rows[mhs].pembimbing,
        periode := students.rows[mhs].periode, status := Planned)]
  {
    var guard := RequireMahasiswa(u);
    if !guard.Ok? {
      return Denied(guard.message);
    }
    var mhs := guard.value;
    if students.rows[mhs].pembimbing.None? {
      return Ok(Refused("Anda belum memiliki dosen pembimbing PKL. Silakan hubungi koordinator PKL terlebih dahulu."));
    }
    if form.None? {
      return Ok(FormInvalid);
    }
    var id := CreateGuidanceSession(sessions, students, mhs, form.value);
    r := Ok(Submitted(id));
  }

  // ---------------------------------------------------------------------
  // Internship application
  // ---------------------------------------------------------------------

  /** A submission is locked once the latest one has left DIKIRIM. */
  predicate PendaftaranLocked(latest: Option<Pendaftaran>)
  {
    latest.Some? && latest.value.status != PendaftaranStatus.Dikirim
  }

  /** `latest` is the student's most recently submitted application, if any. */
  ghost predicate IsLatestPendaftaran(rows: map<nat, Pendaftaran>, mhs: MahasiswaId, latest: Option<nat>)
  {
    match latest
    case None => forall k :: k in rows ==> rows[k].mahasiswa != mhs
    case Some(k) =>
      k in rows && rows[k].mahasiswa == mhs &&
      forall j :: j in rows && rows[j].mahasiswa == mhs ==> rows[j].tanggalPengajuan <= rows[k].tanggalPengajuan
  }

  /** The fields of the application form; a valid one has passed the
      upload validator and the partner-choice rule. */
  datatype PendaftaranForm = PendaftaranForm(
    periode: PeriodeId,
    mitra: MitraId,
    jenisPkl: JenisPkl,
    anggotaKelompok: string,
    suratPenerimaan: string)

  /** The application a valid form writes onto `base`: the form's fields,
      this student, status DIKIRIM, and the advisor of `base`, or the
      student's when `base` has none. */
  function SubmittedPendaftaran(base: Pendaftaran, f: PendaftaranForm, mhs: MahasiswaId, m: Mahasiswa): (p: Pendaftaran)
    ensures p.status == PendaftaranStatus.Dikirim && p.mahasiswa == mhs
    ensures p.pembimbing == if base.pembimbing.Some? then base.pembimbing else m.pembimbing
    ensures p.periode == f.periode && p.mitra == f.mitra && p.suratPenerimaan == f.suratPenerimaan
    ensures p.catatanKoordinator == base.catatanKoordinator && p.tanggalPengajuan == base.tanggalPengajuan
  {
    var p := base.(periode := f.periode, mitra := f.mitra, jenisPkl := f.jenisPkl,
                   anggotaKelompok := f.anggotaKelompok, suratPenerimaan := f.suratPenerimaan);
    var p1 := p.(mahasiswa := mhs, status := PendaftaranStatus.Dikirim);
    if p1.pembimbing.None? then p1.(pembimbing := m.pembimbing) else p1
  }

  /** A fresh application before the form's fields are applied. */
  function BlankPendaftaran(now: DateTime): Pendaftaran
  {
    Pendaftaran(0, 0, 0, Individu, "", "", DefaultPendaftaranStatus, None, "", now)
  }

  /** `mahasiswa_pendaftaran_pkl` on POST: refused while no period is
      active, refused once the latest application has been processed;
      otherwise a valid form is written onto the latest application (or a
      new one) and saved. A submitted application is never approved, so
      the student record is not touched. */
  method MahasiswaPendaftaranPkl(apps: Table<Pendaftaran>, students: Table<Mahasiswa>, u: User,
                                 periodeAktif: Option<PeriodeId>, latest: Option<nat>,
                                 form: Option<PendaftaranForm>, now: DateTime)
    returns (r: Response<Outcome>)
    requires apps.Valid() && UniqueBy(apps.rows, PendaftaranKey) && students.Valid()
    requires u.mahasiswaProfile.Some? ==>
      u.mahasiswaProfile.value in students.rows && IsLatestPendaftaran(apps.rows, u.mahasiswaProfile.value, latest)
    modifies apps, students
    ensures apps.Valid() && UniqueBy(apps.rows, PendaftaranKey)
    ensures students.rows == old(students.rows)
    ensures r.Ok? <==> u.mahasiswaProfile.Some?
    ensures r.Ok? ==> (r.value == Refused("Belum ada periode PKL yang aktif saat ini.") <==> periodeAktif.None?)
    ensures r.Ok? ==> (r.value == Refused("Pendaftaran sudah diproses sehingga tidak dapat diubah lagi.") <==>
      periodeAktif.Some? && latest.Some? && PendaftaranLocked(Some(old(apps.rows)[latest.value])))
    ensures r.Ok? && (r.value.Submitted? || r.value.DatabaseError?) ==>
      periodeAktif.Some? && form.Some? && !(latest.Some? && PendaftaranLocked(Some(old(apps.rows)[latest.value])))
    ensures !(r.Ok? && r.value.Submitted?) ==> apps.rows == old(apps.rows)
    ensures r.Ok? && r.value.Submitted? ==>
      var mhs := u.mahasiswaProfile.value;
      var base := if latest.Some? then old(apps.rows)[latest.value] else BlankPendaftaran(now);
      && apps.rows == old(apps.rows)[r.value.id := SubmittedPendaftaran(base, form.value, mhs, old(students.rows)[mhs])]
      && (latest.Some? ==> r.value.id == latest.value)
  {
    var guard := RequireMahasiswa(u);
    if !guard.Ok? {
      return Denied(guard.message);
    }
    var mhs := guard.value;
    var m := students.rows[mhs];
    var eligible := periodeAktif.Some?;
    var isLocked := latest.Some? && apps.rows[latest.value].status != PendaftaranStatus.Dikirim;
    if !eligible {
      return Ok(Refused("Belum ada periode PKL yang aktif saat ini."));
    }
    if isLocked {
      return Ok(Refused("Pendaftaran sudah diproses sehingga tidak dapat diubah lagi."));
    }
    if form.None? {
      return Ok(FormInvalid);
    }
    var f := form.value;
    var obj := if latest.Some? then apps.rows[latest.value] else BlankPendaftaran(now);
    obj := obj.(periode := f.periode, mitra := f.mitra, jenisPkl := f.jenisPkl,
                anggotaKelompok := f.anggotaKelompok, suratPenerimaan := f.suratPenerimaan);
    obj := obj.(mahasiswa := mhs);
    obj := obj.(status := PendaftaranStatus.Dikirim);
    if obj.pembimbing.None? {
      obj := obj.(pembimbing := m.pembimbing);
    }
    var saved := SavePendaftaran(apps, students, latest, obj);
    if saved.IntegrityError? {
      return Ok(DatabaseError);
    }
    r := Ok(Submitted(saved.id));
  }

  // ---------------------------------------------------------------------
  // Result seminar registration
  // ---------------------------------------------------------------------

  /** The fields of the seminar registration form. */
  datatype SeminarForm = SeminarForm(judulLaporan: string, fileLaporan: string)

  /** A registration is locked once the seminar has left DIKIRIM. */
  predicate SeminarLocked(latest: Option<Seminar>)
  {
    latest.Some? && latest.value.status != SeminarStatus.Dikirim
  }

  /** Enough DONE mentoring sessions for the seminar. */
  predicate Eligible(sessions: map<nat, GuidanceSession>, mhs: MahasiswaId, minimal: nat)
  {
    CountDone(sessions, mhs) >= minimal
  }

  /** `latest` is the student's most recently created seminar, restricted to
      one period when `periode` is given. */
  ghost predicate IsLatestSeminar(rows: map<nat, Seminar>, mhs: MahasiswaId, periode: Option<PeriodeId>, latest: Option<nat>)
  {
    match latest
    case None => forall k :: k in rows ==> !SeminarOf(rows[k], mhs, periode)
    case Some(k) =>
      k in rows && SeminarOf(rows[k], mhs, periode) &&
      forall j :: j in rows && SeminarOf(rows[j], mhs, periode) ==> rows[j].createdAt <= rows[k].createdAt
  }

  predicate SeminarOf(s: Seminar, mhs: MahasiswaId, periode: Option<PeriodeId>)
  {
    s.mahasiswa == mhs && (periode.None? || s.periode == periode.value)
  }

  /** A fresh seminar before the form's fields are applied. */
  function BlankSeminar(now: DateTime): Seminar
  {
    Seminar(0, 0, None, "", "", DefaultSeminarStatus, None, None, None, "", now)
  }

  /** The seminar a valid registration writes onto `base`: the report title
      and file from the form; student, period and advisor from the student;
      status DIKIRIM. Examiners, date-time and room stay as they were. */
  function SubmittedSeminar(base: Seminar, f: SeminarForm, mhs: MahasiswaId, m: Mahasiswa): (s: Seminar)
    requires m.periode.Some?
    ensures s.status == SeminarStatus.Dikirim
    ensures s.mahasiswa == mhs && Some(s.periode) == m.periode && s.pembimbing == m.pembimbing
    ensures s.judulLaporan == f.judulLaporan && s.fileLaporan == f.fileLaporan
    ensures s.penguji1 == base.penguji1 && s.penguji2 == base.penguji2
    ensures s.jadwal == base.jadwal && s.ruang == base.ruang && s.createdAt == base.createdAt
  {
    base.(judulLaporan := f.judulLaporan, fileLaporan := f.fileLaporan, mahasiswa := mhs,
          periode := m.periode.value, pembimbing := m.pembimbing, status := SeminarStatus.Dikirim)
  }

  /** The accepted path shared by both copies of the seminar registration:
      the form's fields are written onto the latest seminar (or a new one),
      student, period and advisor come from the student, the status becomes
      DIKIRIM, and the row is saved. A student without a period cannot be
      saved (the period is a required column), nor can a row clashing with
      another seminar of the same student and period. */
  method SubmitSeminar(seminars: Table<Seminar>, mhs: MahasiswaId, m: Mahasiswa, latest: Option<nat>,
                       f: SeminarForm, now: DateTime)
    returns (r: Outcome)
    requires seminars.Valid() && UniqueBy(seminars.rows, SeminarKey)
    requires latest.Some? ==> latest.value in seminars.rows
    modifies seminars
    ensures seminars.Valid() && UniqueBy(seminars.rows, SeminarKey)
    ensures r.Submitted? || r.DatabaseError?
    ensures r.DatabaseError? <==>
      m.periode.None? || TakenBy(old(seminars.rows), SeminarKey, latest, (mhs, m.periode.value))
    ensures r.DatabaseError? ==> seminars.rows == old(seminars.rows)
    ensures r.Submitted? ==>
      var base := if latest.Some? then old(seminars.rows)[latest.value] else BlankSeminar(now);
      && m.periode.Some?
      && seminars.rows == old(seminars.rows)[r.id := SubmittedSeminar(base, f, mhs, m)]
      && (latest.Some? ==> r.id == latest.value)
      && (latest.None? ==> r.id !in old(seminars.rows))
  {
    var obj := if latest.Some? then seminars.rows[latest.value] else BlankSeminar(now);
    obj := obj.(judulLaporan := f.judulLaporan, fileLaporan := f.fileLaporan);
    obj := obj.(mahasiswa := mhs);
    if m.periode.None? {
      return DatabaseError;
    }
    obj := obj.(periode := m.periode.value);
    obj := obj.(pembimbing := m.pembimbing);
    obj := obj.(status := SeminarStatus.Dikirim);
    var saved := SaveSeminar(seminars, latest, obj);
    if saved.IntegrityError? {
      return DatabaseError;
    }
    r := Submitted(saved.id);
  }

  /** The number of DONE sessions this copy asks for. */
  const MinimalBimbingan: nat := 5

  const SeminarNotEligibleMessage: string :=
    "Anda belum memenuhi syarat minimal 5 kali bimbingan untuk mendaftar seminar."
  const SeminarLockedMessage: string := "Data seminar sudah diproses sehingga tidak dapat diubah lagi."

  /** `mahasiswa_seminar_pendaftaran` on POST: refused below five DONE
      sessions, refused once the latest seminar has left DIKIRIM; otherwise
      a valid form is submitted. */
  method MahasiswaSeminarPendaftaran(seminars: Table<Seminar>, sessions: map<nat, GuidanceSession>,
                                     students: map<MahasiswaId, Mahasiswa>, u: User, latest: Option<nat>,
                                     form: Option<SeminarForm>, now: DateTime)
    returns (r: Response<Outcome>)
    requires seminars.Valid() && UniqueBy(seminars.rows, SeminarKey)
    requires u.mahasiswaProfile.Some? ==>
      u.mahasiswaProfile.value in students && IsLatestSeminar(seminars.rows, u.mahasiswaProfile.value, None, latest)
    modifies seminars
    ensures seminars.Valid() && UniqueBy(seminars.rows, SeminarKey)
    ensures r.Ok? <==> u.mahasiswaProfile.Some?
    ensures r.Ok? ==> (r.value == Refused(SeminarNotEligibleMessage) <==>
      !Eligible(sessions, u.mahasiswaProfile.value, MinimalBimbingan))
    ensures r.Ok? ==> (r.value == Refused(SeminarLockedMessage) <==>
      Eligible(sessions, u.mahasiswaProfile.value, MinimalBimbingan) &&
      latest.Some? && SeminarLocked(Some(old(seminars.rows)[latest.value])))
    ensures r.Ok? && (r.value.Submitted? || r.value.DatabaseError?) ==>
      Eligible(sessions, u.mahasiswaProfile.value, MinimalBimbingan) && form.Some? &&
      !(latest.Some? && SeminarLocked(Some(old(seminars.rows)[latest.value])))
    ensures !(r.Ok? && r.value.Submitted?) ==> seminars.rows == old(seminars.rows)
    ensures r.Ok? && r.value.Submitted? ==>
      var mhs := u.mahasiswaProfile.value;
      var base := if latest.Some? then old(seminars.rows)[latest.value] else BlankSeminar(now);
      && students[mhs].periode.Some?
      && seminars.rows == old(seminars.rows)[r.value.id := SubmittedSeminar(base, form.value, mhs, students[mhs])]
  {
    var guard := RequireMahasiswa(u);
    if !guard.Ok? {
      return Denied(guard.message);
    }
    var mhs := guard.value;
    var jumlahBimbinganSelesai := CountDone(sessions, mhs);
    var eligible := jumlahBimbinganSelesai >= MinimalBimbingan;
    var isLocked := latest.Some? && seminars.rows[latest.value].status != SeminarStatus.Dikirim;
    if !eligible {
      return Ok(Refused(SeminarNotEligibleMessage));
    }
    if isLocked {
      return Ok(Refused(SeminarLockedMessage));
    }
    if form.None? {
      return Ok(FormInvalid);
    }
    var outcome := SubmitSeminar(seminars, mhs, students[mhs], latest, form.value, now);
    r := Ok(outcome);
  }
}
