/** The records of the portal's master data (lecturers, students, internship
    applications, result seminars), the uniqueness constraints of their
    tables, and the rule that copies an approved application into the
    student's record. */
module MasterData {
  import opened Common

  // ---------------------------------------------------------------------
  // Lecturer
  // ---------------------------------------------------------------------

  datatype Dosen = Dosen(
    nidn: string,
    nama: string,
    kuotaBimbingan: nat,
    isKoordinatorPkl: bool)

  /** The default mentoring quota of a new lecturer. */
  const DefaultKuotaBimbingan: nat := 10

  // ---------------------------------------------------------------------
  // Student
  // ---------------------------------------------------------------------

  datatype StatusPkl = Belum | Sedang | Selesai

  datatype Mahasiswa = Mahasiswa(
    nim: string,
    nama: string,
    angkatan: nat,
    statusPkl: StatusPkl,
    pembimbing: Option<DosenId>,
    mitra: Option<MitraId>,
    periode: Option<PeriodeId>)

  // ---------------------------------------------------------------------
  // Internship application
  // ---------------------------------------------------------------------

  datatype PendaftaranStatus = Dikirim | Disetujui | Ditolak

  /** A new application starts as submitted. */
  const DefaultPendaftaranStatus: PendaftaranStatus := PendaftaranStatus.Dikirim

  /** The code stored in the database for each application status. */
  function PendaftaranStatusCode(s: PendaftaranStatus): string
  {
    match s
    case Dikirim => "DIKIRIM"
    case Disetujui => "DISETUJUI"
    case Ditolak => "DITOLAK"
  }

  /** The coordinator's posted status is taken only when it is one of the
      three codes; anything else (or no value) leaves the status alone. */
  function ParsePendaftaranStatus(posted: Option<string>): (r: Option<PendaftaranStatus>)
    ensures r.Some? <==> posted in {Some("DIKIRIM"), Some("DISETUJUI"), Some("DITOLAK")}
    ensures r.Some? ==> posted == Some(PendaftaranStatusCode(r.value))
  {
    if posted == Some("DIKIRIM") then Some(PendaftaranStatus.Dikirim)
    else if posted == Some("DISETUJUI") then Some(PendaftaranStatus.Disetujui)
    else if posted == Some("DITOLAK") then Some(PendaftaranStatus.Ditolak)
    else None
  }

  /** Every status survives being written as its code and read back. */
  lemma PendaftaranStatusRoundTrip(s: PendaftaranStatus)
    ensures ParsePendaftaranStatus(Some(PendaftaranStatusCode(s))) == Some(s)
  {
  }

  datatype JenisPkl = Individu | Kelompok

  datatype Pendaftaran = Pendaftaran(
    mahasiswa: MahasiswaId,
    periode: PeriodeId,
    mitra: MitraId,
    jenisPkl: JenisPkl,
    anggotaKelompok: string,
    suratPenerimaan: string,
    status: PendaftaranStatus,
    pembimbing: Option<DosenId>,
    catatanKoordinator: string,
    tanggalPengajuan: DateTime)

  /** The student record after `sinkron_ke_mahasiswa`: the application's
      period and partner, its advisor when it has one, and status SEDANG.
      Period and partner are NOT NULL columns of an application, so their
      guards always hold for a stored row. */
  function Synced(m: Mahasiswa, p: Pendaftaran): Mahasiswa
  {
    var m1 := m.(periode := Some(p.periode));
    var m2 := m1.(mitra := Some(p.mitra));
    var m3 := if p.pembimbing.Some? then m2.(pembimbing := p.pembimbing) else m2;
    m3.(statusPkl := Sedang)
  }

  /** What the sync does to a student, field by field: it takes the
      application's period and partner, takes its advisor only when one is
      set (otherwise the student keeps the previous advisor), moves the
      student to SEDANG, and leaves the identity fields alone. */
  lemma SyncEffect(m: Mahasiswa, p: Pendaftaran)
    ensures Synced(m, p).periode == Some(p.periode)
    ensures Synced(m, p).mitra == Some(p.mitra)
    ensures Synced(m, p).pembimbing == if p.pembimbing.Some? then p.pembimbing else m.pembimbing
    ensures Synced(m, p).statusPkl == Sedang
    ensures Synced(m, p).nim == m.nim && Synced(m, p).nama == m.nama
    ensures Synced(m, p).angkatan == m.angkatan
  {
  }

  /** Syncing twice gives the student that syncing once gives. */
  lemma SyncIdempotent(m: Mahasiswa, p: Pendaftaran)
    ensures Synced(Synced(m, p), p) == Synced(m, p)
  {
  }

  /** `sinkron_ke_mahasiswa`: overwrite the linked student's fields in place
      and save the student. */
  method SinkronKeMahasiswa(students: Table<Mahasiswa>, p: Pendaftaran)
    requires students.Valid() && p.mahasiswa in students.rows
    modifies students
    ensures students.Valid()
    ensures students.rows == old(students.rows)[p.mahasiswa := Synced(old(students.rows)[p.mahasiswa], p)]
  {
    var m := students.rows[p.mahasiswa];
    m := m.(periode := Some(p.periode));
    m := m.(mitra := Some(p.mitra));
    if p.pembimbing.Some? {
      m := m.(pembimbing := p.pembimbing);
    }
    m := m.(statusPkl := Sedang);
    students.Update(p.mahasiswa, m);
  }

  /** The post-save signal handler: every save of an approved application,
      created or updated, runs the sync; no advisor is needed. */
  method SyncMahasiswaWhenPendaftaranApproved(students: Table<Mahasiswa>, p: Pendaftaran)
    requires students.Valid() && p.mahasiswa in students.rows
    modifies students
    ensures students.Valid()
    ensures p.status == PendaftaranStatus.Disetujui ==>
      students.rows == old(students.rows)[p.mahasiswa := Synced(old(students.rows)[p.mahasiswa], p)]
    ensures p.status != PendaftaranStatus.Disetujui ==> students.rows == old(students.rows)
  {
    if p.status == PendaftaranStatus.Disetujui {
      SinkronKeMahasiswa(students, p);
    }
  }

  // ---------------------------------------------------------------------
  // Uniqueness of (student, period)
  // ---------------------------------------------------------------------

  /** No two rows of the table share a key. */
  ghost predicate UniqueBy<T>(rows: map<nat, T>, key: T -> (nat, nat))
  {
    forall a, b :: a in rows && b in rows && a != b ==> key(rows[a]) != key(rows[b])
  }

  /** Some row other than `self` already holds key `k`. */
  predicate TakenBy<T>(rows: map<nat, T>, key: T -> (nat, nat), self: Option<nat>, k: (nat, nat))
  {
    exists j :: j in rows && Some(j) != self && key(rows[j]) == k
  }

  /** Writing a row whose key no other row holds keeps the table unique. */
  lemma WriteKeepsUnique<T>(rows: map<nat, T>, key: T -> (nat, nat), id: nat, x: T)
    requires UniqueBy(rows, key)
    requires !TakenBy(rows, key, Some(id), key(x))
    ensures UniqueBy(rows[id := x], key)
  {
    var r := rows[id := x];
    forall a, b | a in r && b in r && a != b
      ensures key(r[a]) != key(r[b])
    {
      if a == id {
        assert b in rows && Some(b) != Some(id);
      } else if b == id {
        assert a in rows && Some(a) != Some(id);
      }
    }
  }

  /** The key of `unique_together = ("mahasiswa", "periode")`. */
  function PendaftaranKey(p: Pendaftaran): (nat, nat)
  {
    (p.mahasiswa, p.periode)
  }

  datatype SaveResult = Saved(id: nat) | IntegrityError

  /** `PendaftaranPKL.save`: store the row (the database refuses a second
      application for the same student and period), which fires the
      post-save signal, then run the model's own hook, which syncs again
      when the application is approved and has an advisor. Together the
      student ends up synced exactly when the application is approved. */
  method SavePendaftaran(apps: Table<Pendaftaran>, students: Table<Mahasiswa>, pk: Option<nat>, p: Pendaftaran)
    returns (r: SaveResult)
    requires apps.Valid() && UniqueBy(apps.rows, PendaftaranKey)
    requires pk.Some? ==> pk.value in apps.rows
    requires students.Valid() && p.mahasiswa in students.rows
    modifies apps, students
    ensures apps.Valid() && UniqueBy(apps.rows, PendaftaranKey) && students.Valid()
    ensures r.IntegrityError? <==> TakenBy(old(apps.rows), PendaftaranKey, pk, PendaftaranKey(p))
    ensures r.IntegrityError? ==> apps.rows == old(apps.rows) && students.rows == old(students.rows)
    ensures r.Saved? ==> apps.rows == old(apps.rows)[r.id := p]
    ensures r.Saved? && pk.Some? ==> r.id == pk.value
    ensures r.Saved? && pk.None? ==> r.id !in old(apps.rows)
    ensures r.Saved? && p.status == PendaftaranStatus.Disetujui ==>
      students.rows == old(students.rows)[p.mahasiswa := Synced(old(students.rows)[p.mahasiswa], p)]
    ensures r.Saved? && p.status != PendaftaranStatus.Disetujui ==> students.rows == old(students.rows)
  {
    if TakenBy(apps.rows, PendaftaranKey, pk, PendaftaranKey(p)) {
      return IntegrityError;
    }
    var id: nat;
    if pk.Some? {
      id := pk.value;
      WriteKeepsUnique(apps.rows, PendaftaranKey, id, p);
      apps.Update(id, p);
    } else {
      id := apps.Insert(p);
      WriteKeepsUnique(old(apps.rows), PendaftaranKey, id, p);
    }
    ghost var before := students.rows[p.mahasiswa];
    SyncMahasiswaWhenPendaftaranApproved(students, p);
    if p.status == PendaftaranStatus.Disetujui && p.pembimbing.Some? {
      SinkronKeMahasiswa(students, p);
      SyncIdempotent(before, p);
    }
    r := Saved(id);
  }

  /** An approved application without an advisor still moves the student
      to SEDANG with its period and partner, and the student keeps the
      advisor they had. */
  lemma ApprovalWithoutAdvisorKeepsStudentAdvisor(m: Mahasiswa, p: Pendaftaran)
    requires p.status == PendaftaranStatus.Disetujui && p.pembimbing.None?
    ensures Synced(m, p).pembimbing == m.pembimbing
    ensures Synced(m, p).statusPkl == Sedang
    ensures Synced(m, p).periode == Some(p.periode) && Synced(m, p).mitra == Some(p.mitra)
  {
    SyncEffect(m, p);
  }

  // ---------------------------------------------------------------------
  // Result seminar
  // ---------------------------------------------------------------------

  datatype SeminarStatus = Dikirim | Dijadwalkan | Selesai | Ditolak

  /** A new seminar starts as submitted. */
  const DefaultSeminarStatus: SeminarStatus := SeminarStatus.Dikirim

  datatype Seminar = Seminar(
    mahasiswa: MahasiswaId,
    periode: PeriodeId,
    pembimbing: Option<DosenId>,
    judulLaporan: string,
    fileLaporan: string,
    status: SeminarStatus,
    penguji1: Option<DosenId>,
    penguji2: Option<DosenId>,
    jadwal: Option<DateTime>,
    ruang: string,
    createdAt: DateTime)

  /** The key of the seminar table's `unique_together = ("mahasiswa", "periode")`. */
  function SeminarKey(s: Seminar): (nat, nat)
  {
    (s.mahasiswa, s.periode)
  }

  /** `SeminarHasilPKL.save`: store the row (a new one when `pk` is
      absent); the database refuses a second seminar for the same student
      and period. */
  method SaveSeminar(seminars: Table<Seminar>, pk: Option<nat>, s: Seminar) returns (r: SaveResult)
    requires seminars.Valid() && UniqueBy(seminars.rows, SeminarKey)
    requires pk.Some? ==> pk.value in seminars.rows
    modifies seminars
    ensures seminars.Valid() && UniqueBy(seminars.rows, SeminarKey)
    ensures r.IntegrityError? <==> TakenBy(old(seminars.rows), SeminarKey, pk, SeminarKey(s))
    ensures r.IntegrityError? ==> seminars.rows == old(seminars.rows)
    ensures r.Saved? ==> seminars.rows == old(seminars.rows)[r.id := s]
    ensures r.Saved? && pk.Some? ==> r.id == pk.value
    ensures r.Saved? && pk.None? ==> r.id !in old(seminars.rows)
  {
    if TakenBy(seminars.rows, SeminarKey, pk, SeminarKey(s)) {
      return IntegrityError;
    }
    var id: nat;
    if pk.Some? {
      id := pk.value;
      WriteKeepsUnique(seminars.rows, SeminarKey, id, s);
      seminars.Update(id, s);
    } else {
      id := seminars.Insert(s);
      WriteKeepsUnique(old(seminars.rows), SeminarKey, id, s);
    }
    r := Saved(id);
  }

  /** A scheduling form saved onto a seminar: both examiners, the date-time
      and the room take the submitted values and the status becomes
      DIJADWALKAN; nothing else changes. */
  function Scheduled(s: Seminar, d1: Option<DosenId>, d2: Option<DosenId>, jadwal: Option<DateTime>, ruang: string): Seminar
  {
    s.(penguji1 := d1, penguji2 := d2, jadwal := jadwal, ruang := ruang, status := SeminarStatus.Dijadwalkan)
  }
}
