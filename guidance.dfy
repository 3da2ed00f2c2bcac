/** Mentoring ("bimbingan") sessions between a student and the advisor, and
    the save hook that fills a session's advisor and period from the
    student. */
module Guidance {
  import opened Common
  import opened MasterData

  datatype GuidanceStatus = Planned | Done | Cancelled
  datatype Metode = Online | Offline | Hybrid

  const DefaultGuidanceStatus: GuidanceStatus := Planned
  const DefaultMetode: Metode := Online

  datatype GuidanceSession = GuidanceSession(
    mahasiswa: MahasiswaId,
    dosenPembimbing: Option<DosenId>,
    periode: Option<PeriodeId>,
    pertemuanKe: Option<nat>,
    tanggal: Date,
    jamMulai: Option<Time>,
    jamSelesai: Option<Time>,
    metode: Metode,
    platform: Option<string>,
    topik: string,
    ringkasanDiskusi: string,
    tindakLanjut: Option<string>,
    status: GuidanceStatus)

  /** A session as a form creates it, before any hook runs: no advisor, no
      period, and the field defaults for status and method. */
  function NewSession(mahasiswa: MahasiswaId, tanggal: Date, topik: string, ringkasan: string): (s: GuidanceSession)
    ensures s.status == Planned && s.metode == Online
    ensures s.dosenPembimbing.None? && s.periode.None?
    ensures s.mahasiswa == mahasiswa && s.tanggal == tanggal
  {
    GuidanceSession(mahasiswa, None, None, None, tanggal, None, None, DefaultMetode,
                    None, topik, ringkasan, None, DefaultGuidanceStatus)
  }

  /** The session `GuidanceSession.save` writes, given the student `m` it
      belongs to (the student reference is a non-null foreign key, so its
      guard always holds). */
  function AutoFilled(s: GuidanceSession, m: Mahasiswa): GuidanceSession
  {
    var s1 := if s.dosenPembimbing.None? then s.(dosenPembimbing := m.pembimbing) else s;
    if s1.periode.None? then s1.(periode := m.periode) else s1
  }

  /** An advisor or a period already on the session is never replaced. */
  lemma AutoFillNeverOverwrites(s: GuidanceSession, m: Mahasiswa)
    ensures s.dosenPembimbing.Some? ==> AutoFilled(s, m).dosenPembimbing == s.dosenPembimbing
    ensures s.periode.Some? ==> AutoFilled(s, m).periode == s.periode
  {
  }

  /** A missing advisor or period comes from the student; when the student
      has none either, it stays empty. */
  lemma AutoFillTakesFromStudent(s: GuidanceSession, m: Mahasiswa)
    ensures s.dosenPembimbing.None? ==> AutoFilled(s, m).dosenPembimbing == m.pembimbing
    ensures s.periode.None? ==> AutoFilled(s, m).periode == m.periode
    ensures AutoFilled(s, m).dosenPembimbing.None? <==> s.dosenPembimbing.None? && m.pembimbing.None?
  {
  }

  /** Apart from advisor and period, the hook leaves the session as it was. */
  lemma AutoFillTouchesNothingElse(s: GuidanceSession, m: Mahasiswa)
    ensures AutoFilled(s, m).(dosenPembimbing := s.dosenPembimbing, periode := s.periode) == s
  {
  }

  /** Saving a second time changes nothing more. */
  lemma AutoFillIdempotent(s: GuidanceSession, m: Mahasiswa)
    ensures AutoFilled(AutoFilled(s, m), m) == AutoFilled(s, m)
  {
  }

  /** `GuidanceSession.save`: fill the advisor, then the period, in place,
      then store the row (a new one when `pk` is absent). */
  method SaveSession(sessions: Table<GuidanceSession>, students: Table<Mahasiswa>, pk: Option<nat>, s: GuidanceSession)
    returns (id: nat, saved: GuidanceSession)
    requires sessions.Valid() && s.mahasiswa in students.rows
    requires pk.Some? ==> pk.value in sessions.rows
    modifies sessions
    ensures saved == AutoFilled(s, students.rows[s.mahasiswa])
    ensures sessions.Valid() && sessions.rows == old(sessions.rows)[id := saved]
    ensures pk.Some? ==> id == pk.value
    ensures pk.None? ==> id !in old(sessions.rows)
  {
    var m := students.rows[s.mahasiswa];
    saved := s;
    if saved.dosenPembimbing.None? {
      saved := saved.(dosenPembimbing := m.pembimbing);
    }
    if saved.periode.None? {
      saved := saved.(periode := m.periode);
    }
    if pk.Some? {
      id := pk.value;
      sessions.Update(id, saved);
    } else {
      id := sessions.Insert(saved);
    }
  }

  /** The keys of the student's sessions with status DONE. */
  function DoneSessions(rows: map<nat, GuidanceSession>, mhs: MahasiswaId): set<nat>
  {
    set k | k in rows && rows[k].mahasiswa == mhs && rows[k].status == Done
  }

  /** `GuidanceSession.objects.filter(mahasiswa=mhs, status="DONE").count()`. */
  function CountDone(rows: map<nat, GuidanceSession>, mhs: MahasiswaId): nat
  {
    |DoneSessions(rows, mhs)|
  }

  /** A new session that is not DONE leaves every student's DONE count
      where it was, so creating a session never makes a student eligible
      for the seminar. */
  lemma NewNotDoneKeepsCount(rows: map<nat, GuidanceSession>, id: nat, x: GuidanceSession, mhs: MahasiswaId)
    requires id !in rows && x.status != Done
    ensures CountDone(rows[id := x], mhs) == CountDone(rows, mhs)
  {
    assert DoneSessions(rows[id := x], mhs) == DoneSessions(rows, mhs);
  }

  /** A new DONE session of the student raises the count by exactly one. */
  lemma NewDoneIncrementsCount(rows: map<nat, GuidanceSession>, id: nat, x: GuidanceSession)
    requires id !in rows && x.status == Done
    ensures CountDone(rows[id := x], x.mahasiswa) == CountDone(rows, x.mahasiswa) + 1
  {
    assert DoneSessions(rows[id := x], x.mahasiswa) == DoneSessions(rows, x.mahasiswa) + {id};
  }
}
