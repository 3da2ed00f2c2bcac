/** Daily internship logbook entries written by a student and reviewed by
    the advisor. */
module Logbook {
  import opened Common

  datatype LogbookStatus = Draft | Submit | Revisi | Disetujui

  /** An entry starts as a draft unless the view that creates it says
      otherwise. */
  const DefaultLogbookStatus: LogbookStatus := Draft

  datatype LogbookEntry = LogbookEntry(
    mahasiswa: MahasiswaId,
    dosenPembimbing: Option<DosenId>,
    periode: Option<PeriodeId>,
    tanggal: Date,
    jamMulai: Option<Time>,
    jamSelesai: Option<Time>,
    aktivitas: string,
    toolsYangDigunakan: string,
    output: string,
    status: LogbookStatus,
    catatanDosen: string)
}
