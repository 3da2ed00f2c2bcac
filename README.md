# PKL portal — business rules in Dafny

A Django web portal runs a university's internship programme (Praktik Kerja
Lapangan, "PKL"). Its users are students (mahasiswa), lecturers (dosen)
and the internship coordinator (a lecturer with the coordinator flag). The
portal handles these steps:

- **Application:** a student applies for an internship with a partner company (mitra).
- **Approval:** the coordinator approves the application and assigns an advisor (dosen pembimbing).
- **Mentoring and logbook:** the student records mentoring sessions (bimbingan) and logbook entries.
- **Seminar:** after enough DONE sessions the student registers for the result seminar. The coordinator schedules it with examiners (dosen penguji), a date-time and a room.
- **Grading:** the examiners grade the seminar.

This project models the rules underneath the ORM, template and HTTP plumbing:

- **Records:** every record is a datatype. Every database table is a `Common.Table` object.
  - Its `rows` map from primary key to record.
  - Its `Insert`/`Update` are the only ways rows change.
- **Views:** every view is a method taking the tables it writes (`modifies` names exactly those) and answering `Auth.Response`:
  - a refusal carrying the message of its `HttpResponseForbidden`;
  - a 404;
  - or its outcome.
- **ORM lookups:** "latest row" lookups (`order_by(...).first()`) are inputs, constrained by ghost predicates saying that they are the latest row.
- **Invariants:**
  - each `unique_together` key is an invariant (`MasterData.UniqueBy`) that every writing method keeps;
  - the coordinator's conflict-checked scheduling keeps "no room and no examiner is double-booked" (`Facade.RoomExclusive`, `Facade.ExaminerExclusive`).

The code base has two copies of several views:

- `portal/views_*.py` (newer);
- `portal/facade.py` (older).

They differ, and both are modelled: module `Facade` holds the older copy's behaviour.

Modules:

| file | module | what it holds |
|---|---|---|
| common.dfy | `Common` | `Option`, ids, posted integers, the `Table` class |
| masterdata.dfy | `MasterData` | lecturer, student, application and seminar records; status codes; the approval sync; uniqueness; saving |
| upload.dfy | `SuratPenerimaan` | the acceptance-letter upload validator |
| guidance.dfy | `Guidance` | mentoring sessions, the save hook that fills advisor and period, DONE counts |
| logbook.dfy | `Logbook` | logbook entries |
| views_auth.dfy | `Auth` | accounts, view responses, the post-login redirect |
| scores.dfy | `Scores` | two-decimal rounding, both final-score computations |
| views_dosen.dfy | `ViewsDosen` | lecturer and coordinator views |
| views_mahasiswa.dfy | `ViewsMahasiswa` | student views |
| facade.dfy | `Facade` | the older copies: conflict-checked scheduling, strict final score, guidance creation, seminar registration |
| forms_seminar.dfy | `FormsSeminar` | the seminar scheduling form |
| forms_pendaftaran.dfy | `FormsPendaftaran` | the application form's partner check |

Where a test and the code disagree, the model follows the code. There are three such places:

- **New-partner test:** `portal/tests.py:217-235` is named as if a new partner name alone made the application form valid. Its assertion only checks that the custom message is absent. The `mitra` model field (`masterdata/models.py:211-216`) is required, so the form stays invalid. `FormsPendaftaran.MitraValidIffChosen` states what the code does.
- **Scheduling form tests:** `portal/tests.py:239-339` post `dosen_penguji_1`/`dosen_penguji_2` and expect messages that `forms_seminar.py` does not contain. The model follows the form as written, with its single `dosen_penguji` field. That field is `dosen_penguji_1` under the name the migration `masterdata/migrations/0009_seminarassessment_role_rename_penguji.py:12-20` gives it, so `ViewsDosen.KoordinatorSeminarDetail` writes the form's examiner into the first examiner field and keeps the second.
- **Advisor check:** the form's `clean` refers to names that do not exist (see Findings). The model's `FormsSeminar.Clean` compares the posted examiner text with the advisor's id, as the surrounding code evidently intends.

## Model

| member | source | states |
|---|---|---|
| Common.Table.Insert | backend/masterdata/models.py:280-281 | a first save adds exactly one row under a key not used before; nothing else changes |
| Common.Table.Update | backend/masterdata/models.py:280-281 | saving an existing row replaces exactly that row |
| MasterData.ParsePendaftaranStatus | backend/portal/views_dosen.py:565-566 | a posted status is accepted iff it is one of DIKIRIM, DISETUJUI, DITOLAK, and then it is the status with that code |
| MasterData.PendaftaranStatusRoundTrip | backend/masterdata/models.py:195-199 | every application status read back from its stored code is itself |
| MasterData.SyncEffect | backend/masterdata/models.py:258-278 | the sync sets period and partner, replaces the advisor only when the application has one, sets SEDANG, keeps every other student field |
| MasterData.SyncIdempotent | backend/masterdata/models.py:258-278 | syncing twice equals syncing once |
| MasterData.SinkronKeMahasiswa | backend/masterdata/models.py:258-278 | only the linked student's row changes, to the synced record |
| MasterData.SyncMahasiswaWhenPendaftaranApproved | backend/masterdata/signals.py:9-16 | every save of an approved application syncs the student, created or updated; any other status changes no student |
| MasterData.WriteKeepsUnique | backend/masterdata/models.py:253 | writing a row whose (student, period) key no other row holds keeps the key unique |
| MasterData.SavePendaftaran | backend/masterdata/models.py:280-284 | the database refuses a duplicate (student, period) key and changes nothing; otherwise the row is stored; the student is synced iff the status is DISETUJUI (save hook plus signal, whose double sync equals one); uniqueness is kept |
| MasterData.ApprovalWithoutAdvisorKeepsStudentAdvisor | backend/masterdata/signals.py:15-16 | an approved application without advisor still sets period, partner and SEDANG, and the student keeps the old advisor |
| MasterData.SaveSeminar | backend/masterdata/models.py:353-356 | a duplicate (student, period) seminar is refused with nothing changed; otherwise exactly this row is written and uniqueness is kept |
| SuratPenerimaan.RFind | backend/masterdata/models.py:11 | the result is the last index holding the character, or -1 when it does not occur |
| SuratPenerimaan.SplitExt | backend/masterdata/models.py:11 | root and extension concatenate to the name; the extension is empty or a dot followed by no dot and no separator |
| SuratPenerimaan.Lower | backend/masterdata/models.py:11 | lower-casing maps each character by itself and keeps the length |
| SuratPenerimaan.ValidateSuratPenerimaanFile | backend/masterdata/models.py:10-18 | wrong format iff the lower-cased extension is not .pdf/.jpg/.jpeg/.png; too large iff the format is right and the size exceeds 2 MiB; accepted otherwise |
| SuratPenerimaan.ExeRejected | backend/masterdata/tests.py:14-19 | an .exe file is refused for its format |
| SuratPenerimaan.SizeBoundary | backend/masterdata/tests.py:21-27 | exactly 2 MiB passes, 3 MiB is too large |
| SuratPenerimaan.LeadingDotNameRejected | backend/masterdata/models.py:11-14 | a name that is only a dot and a format (".pdf") has no extension and is refused |
| SuratPenerimaan.FormatCheckedBeforeSize | backend/masterdata/models.py:11-18 | a wrongly formatted file gets the format error whatever its size |
| SuratPenerimaan.RFindLower | backend/masterdata/models.py:11 | lower-casing moves no dot and no separator |
| SuratPenerimaan.LowerIdempotent | backend/masterdata/models.py:11 | lower-casing twice equals lower-casing once |
| SuratPenerimaan.HasNonDotLower | backend/masterdata/models.py:11 | lower-casing makes no character a dot and none a non-dot |
| SuratPenerimaan.SplitExtLower | backend/masterdata/models.py:11 | the extension of the lower-cased name is the lower-cased extension |
| SuratPenerimaan.CaseInsensitive | backend/masterdata/models.py:11-18 | the verdict on a name equals the verdict on its lower-cased form |
| SuratPenerimaan.UpperCaseExtensionAccepted | backend/masterdata/models.py:11-14 | "SURAT.PDF" is accepted |
| Guidance.NewSession | backend/guidance/models.py:52-56 | a new session defaults to PLANNED and ONLINE with neither advisor nor period |
| Guidance.AutoFillNeverOverwrites | backend/guidance/models.py:91-95 | an advisor or period already on the session is kept |
| Guidance.AutoFillTakesFromStudent | backend/guidance/models.py:91-95 | a missing advisor or period comes from the student; the advisor stays empty iff both are empty |
| Guidance.AutoFillTouchesNothingElse | backend/guidance/models.py:89-97 | the hook changes no field but advisor and period |
| Guidance.AutoFillIdempotent | backend/guidance/models.py:89-97 | saving twice fills as saving once |
| Guidance.SaveSession | backend/guidance/models.py:89-97 | the stored session is the auto-filled one, under its own key or a fresh one |
| Guidance.NewNotDoneKeepsCount | backend/portal/views_mahasiswa.py:315-317 | adding a session that is not DONE changes no student's DONE count |
| Guidance.NewDoneIncrementsCount | backend/portal/views_mahasiswa.py:315-317 | adding a DONE session raises its student's count by one |
| Auth.AfterLogin | backend/portal/views_auth.py:12-30 | coordinator dashboard iff a flagged lecturer; lecturer dashboard iff an unflagged lecturer; student dashboard iff no lecturer but a student; forbidden with its message iff neither |
| Auth.DosenProfileTakesPrecedence | backend/portal/facade.py:38-48 | an account with both profiles is routed as the lecturer, never to the student dashboard |
| Scores.Round2 | backend/portal/views_dosen.py:395 | the result is a whole number of hundredths within half a hundredth of the input |
| Scores.Round2InScale | backend/portal/views_dosen.py:395 | rounding keeps a 0..100 score in 0..100 |
| Scores.ZeroFilled | backend/portal/views_dosen.py:393 | each missing mark becomes 0, each present one is kept |
| Scores.Present | backend/portal/facade.py:167 | with no mark missing, the marks are read off in order |
| Scores.SumPresentIsZeroFilledSum | backend/portal/views_dosen.py:393 | skipping missing marks sums like counting them as zero |
| Scores.SumInScale | backend/portal/views_dosen.py:393-395 | marks in 0..100 sum to at most 100 per mark |
| Scores.FinalScoreViews | backend/portal/views_dosen.py:390-396 | no score iff there is no assessment |
| Scores.FinalScoreViewsIsZeroFilledMean | backend/portal/views_dosen.py:390-396 | the score is the rounded mean over all assessments with missing marks as zero, graded by the conversion, and lies in 0..100 |
| Scores.MissingMarkHalvesScore | backend/portal/views_dosen.py:393-395 | marks 80 and missing give 40, not 80 |
| Scores.FinalScoreFacade | backend/portal/facade.py:164-169 | no score iff no assessment; a TypeError iff some mark is missing |
| Scores.FinalScoresAgreeWhenComplete | backend/portal/facade.py:164-169 | with every mark present both copies give the same score and grade |
| Scores.TwoExaminersExample | backend/portal/tests.py:112-124 | marks 85 and 77 give 81.0, graded A under any conversion matching the points the test suite fixes |
| ViewsDosen.RequireDosen | backend/portal/views_dosen.py:33-38 | admits exactly accounts with a lecturer profile, yielding that lecturer; others are refused with its message |
| ViewsDosen.RequireKoordinator | backend/portal/views_dosen.py:41-47 | admits exactly flagged lecturers; no lecturer and unflagged lecturer get their two messages |
| ViewsDosen.GuardsMatchLoginRoutes | backend/portal/views_dosen.py:33-47 | the coordinator guard admits exactly the accounts sent to the coordinator dashboard, the lecturer guard those sent to either lecturer dashboard |
| ViewsDosen.GradeImpliesView | backend/portal/views_dosen.py:379-384 | whoever may grade may view; an advisor who is not an examiner may view but not grade |
| ViewsDosen.Marks | backend/portal/views_dosen.py:393 | the marks are the assessments' numeric marks in order |
| ViewsDosen.DosenSeminarDetail | backend/portal/views_dosen.py:369-396 | a page iff a lecturer who is advisor or examiner of an existing seminar; 404 iff the seminar is missing; no score iff the assessment table holds no row for this seminar, otherwise the rounded zero-filled mean of that seminar's rows, as the filter lists them, and its grade |
| ViewsDosen.ListingSumsAgree | backend/portal/views_dosen.py:387-394 | two listings of the same assessments, each once, have the same count and the same sum of present marks |
| ViewsDosen.DetailIgnoresListingOrder | backend/portal/views_dosen.py:387-396 | the detail page is the same whatever order the database returns the seminar's assessments in |
| ViewsDosen.DosenSeminarPenilaian | backend/portal/views_dosen.py:409-433 | only an examiner gets through; an invalid form changes nothing and is shown again with the page's message; a valid form overwrites the examiner's existing assessment, or adds a new one, holding this seminar and this examiner; at most one assessment per (seminar, examiner) is kept |
| ViewsDosen.KoordinatorPendaftaranDetail | backend/portal/views_dosen.py:548-578 | coordinator only; the status changes only to a recognised posted code; the advisor changes only to an existing lecturer, and a malformed or unknown id is reported; the note is always written; the student is synced iff the result is approved |
| ViewsDosen.KoordinatorDosenKuota | backend/portal/views_dosen.py:681-705 | the quota is set to exactly the posted value iff the lecturer exists and the value is a non-negative integer; otherwise nothing changes and the failure message is given |
| ViewsDosen.KoordinatorSeminarDetail | backend/portal/views_dosen.py:639-658 | coordinator only; an invalid scheduling form changes nothing and is shown again with exactly the form's errors and the page's message; the form is valid iff it names a listed lecturer other than the seminar's advisor, a date-time and a listed room, and then those become the first examiner, date-time and room with DIJADWALKAN, the second examiner kept and no conflict check; only this row changes |
| ViewsMahasiswa.RequireMahasiswa | backend/portal/views_mahasiswa.py:21-26 | admits exactly accounts with a student profile; others are refused with its message |
| ViewsMahasiswa.MahasiswaLogbookAdd | backend/portal/views_mahasiswa.py:150-163 | a valid form becomes one new entry of this student with the student's advisor and period and status SUBMIT; otherwise nothing changes |
| ViewsMahasiswa.FromGuidanceForm | backend/portal/views_mahasiswa.py:210-213 | the unsaved session carries the form's fields, is PLANNED and has no advisor or period |
| ViewsMahasiswa.CreateGuidanceSession | backend/portal/views_mahasiswa.py:210-218 | one new session of the student with the student's advisor and period and PLANNED; no student's DONE count changes |
| ViewsMahasiswa.MahasiswaGuidanceCreate | backend/portal/views_mahasiswa.py:197-218 | refused with its message iff the student has no advisor; otherwise a valid form creates that session and nothing else changes |
| ViewsMahasiswa.SubmittedPendaftaran | backend/portal/views_mahasiswa.py:268-277 | the application takes the form's fields, this student and DIKIRIM, keeps its own advisor or else takes the student's |
| ViewsMahasiswa.MahasiswaPendaftaranPkl | backend/portal/views_mahasiswa.py:234-277 | refused iff no active period, then iff the latest application has left DIKIRIM, with nothing saved; otherwise the submitted application is saved onto the latest or a new row, a duplicate key giving a database error |
| ViewsMahasiswa.SubmittedSeminar | backend/portal/views_mahasiswa.py:344-349 | the seminar takes the form's title and report, this student, the student's period and advisor and DIKIRIM; the schedule is kept |
| ViewsMahasiswa.SubmitSeminar | backend/portal/views_mahasiswa.py:344-350 | a student without period or a duplicate key gives a database error with nothing changed; otherwise exactly the submitted seminar is written under the latest's key or a fresh one |
| ViewsMahasiswa.MahasiswaSeminarPendaftaran | backend/portal/views_mahasiswa.py:303-350 | refused iff fewer than 5 DONE sessions, then iff the latest seminar has left DIKIRIM, with nothing saved; otherwise the registration is saved |
| Facade.ConflictsIgnoreSelf | backend/portal/facade.py:463-474 | neither conflict check depends on the row being edited |
| Facade.ResubmittingOwnScheduleNeverConflicts | backend/portal/facade.py:462-474 | in a conflict-free table, re-submitting a seminar's own schedule conflicts with nothing |
| Facade.ScheduleKeepsRoomExclusive | backend/portal/facade.py:463-466 | a schedule without room conflict keeps rooms exclusive |
| Facade.ScheduleKeepsExaminerExclusive | backend/portal/facade.py:469-474 | a schedule without examiner conflict keeps examiners exclusive |
| Facade.UncheckedSchedulingDoubleBooks | backend/portal/views_dosen.py:651-658 | when another seminar holds the room or an examiner at that date-time, the unchecked copy's write breaks exclusivity |
| Facade.KoordinatorSeminarDetail | backend/portal/facade.py:452-500 | coordinator only; each conflict is reported iff it exists, both when both exist, each once; with a conflict nothing changes; otherwise only this seminar takes the examiners, date-time, room and DIJADWALKAN; exclusivity and uniqueness are kept |
| Facade.DosenSeminarDetail | backend/portal/facade.py:139-169 | the same access rule as the newer copy; no score iff the seminar has no assessment row; a TypeError iff one of its rows has no mark; otherwise the same score and grade as the newer copy |
| Facade.MahasiswaGuidanceCreate | backend/portal/facade.py:294-321 | refused with this copy's message iff the student has no advisor; otherwise a valid form creates a PLANNED session with the student's advisor and period |
| Facade.FacadeLookupNeverClashes | backend/portal/facade.py:358-364 | the seminar this copy looks up is the only one with the student's (student, period) key |
| Facade.MahasiswaSeminarPendaftaran | backend/portal/facade.py:340-388 | refused with nothing saved iff fewer than 6 DONE sessions, no advisor or no period; otherwise a valid form is always saved, never a database error, even onto a locked seminar |
| Facade.FacadeReopensLockedSeminar | backend/portal/facade.py:366-388 | a seminar that has left DIKIRIM is sent back to DIKIRIM by this copy |
| Facade.MahasiswaSeminarPendaftaranLocked | backend/portal/facade.py:340-388 | as that copy, but a locked seminar is refused with the lock message and left unchanged |
| FormsSeminar.DigitChar | backend/portal/forms_seminar.py:143 | a digit's character denotes the digit |
| FormsSeminar.Decimal | backend/portal/forms_seminar.py:143 | `str(id)` is a non-empty digit string that starts with 0 iff the id is 0 |
| FormsSeminar.ParseId | backend/portal/forms_seminar.py:129 | a posted id is read iff it is a non-empty digit string |
| FormsSeminar.DecimalRoundTrip | backend/portal/forms_seminar.py:127-143 | an id's text reads back as the id |
| FormsSeminar.CanonicalRoundTrip | backend/portal/forms_seminar.py:127-143 | a digit string without leading zero is the text of its value |
| FormsSeminar.DecimalInjective | backend/portal/forms_seminar.py:143 | different ids have different texts |
| FormsSeminar.ExaminerChoices | backend/portal/forms_seminar.py:120-123 | the choices are all lecturers except the advisor |
| FormsSeminar.CleanFields | backend/portal/forms_seminar.py:94-123 | the examiner is cleaned iff the posted id is one of the choices, the room iff it is one of the seven rooms |
| FormsSeminar.Append | backend/portal/forms_seminar.py:134-150 | appending a failed check's error keeps the list in check order and adds exactly that error |
| FormsSeminar.Collect | backend/portal/forms_seminar.py:134-153 | each error is in the list iff its check failed, and the list is in check order |
| FormsSeminar.Clean | backend/portal/forms_seminar.py:125-155 | each of the four errors is reported iff its condition holds, once, in check order; the cleaned data are returned as cleaned |
| FormsSeminar.AcceptedScheduleIsSound | backend/portal/forms_seminar.py:125-155 | no error iff a listed non-advisor lecturer, a date-time and a listed room were posted |
| FormsSeminar.AdvisorPostedGetsBothErrors | backend/portal/forms_seminar.py:118-144 | posting the advisor's id gives both the missing-examiner and the advisor error |
| FormsSeminar.ZeroPaddedAdvisorCaughtByChoices | backend/portal/forms_seminar.py:120-144 | "05" for advisor 5 passes the text comparison but is still refused as no examiner |
| FormsSeminar.CleanAsWritten | backend/portal/forms_seminar.py:127-144 | a NameError iff the seminar has an advisor; otherwise the same errors as the intended check |
| FormsSeminar.AsWrittenFailsWithAdvisor | backend/portal/forms_seminar.py:140-143 | a posting the intended check accepts raises a NameError as written |
| FormsPendaftaran.CleanMitra | backend/portal/forms_pendaftaran.py:49-60 | the custom non-field error, exactly its message, appears iff neither partner nor new name is given; the partner field is missing iff no partner is chosen |
| FormsPendaftaran.MitraValidIffChosen | backend/portal/forms_pendaftaran.py:49-60 | the partner fields pass iff an existing partner is chosen; a new name alone only silences the message |
| FormsPendaftaran.NeitherPartnerNorName | backend/portal/tests.py:189-203 | neither partner nor name gives exactly the custom message |
| FormsPendaftaran.ExistingPartnerValid | backend/portal/tests.py:205-215 | an existing partner passes |
| FormsPendaftaran.NewPartnerNameSilencesMessage | backend/portal/tests.py:217-235 | a new name without partner does not raise the custom message |

`dosen_seminar_penilaian` in `portal/facade.py:182-228` behaves like the newer copy, so `ViewsDosen.DosenSeminarPenilaian` models both. `after_login` in `portal/facade.py:38-48` routes accounts as `portal/views_auth.py:12-30` does; only its refusal message differs ("Akun ini belum dihubungkan ke Dosen atau Mahasiswa.", without "data"), and `Auth.AfterLogin` fixes the newer copy's message.

## Left out

- CSV and PDF export, the admin configuration, dashboards and list views, and the GET branches that only render a page: output formatting and query plumbing with no stated rule.
- `portal/urls.py`, `portal/views.py`, `portal/forms.py` and the migrations: wiring and schema history. The migration that collapses the seminar's two examiners into one is not modelled; the two-examiner record of `masterdata/models.py` is.
- SeminarAssessment and its `save`, which derives the numeric mark, are not part of this model: the derivation is a parameter (`derive`) of `ViewsDosen.DosenSeminarPenilaian`. The letter-grade conversion `konversi_nilai_huruf` is a function parameter, constrained at most by the points the tests fix.
- Scores.Round2: marks are exact rationals and `round(x, 2)` rounds a tie half up; Python rounds binary floats, whose ties are resolved half to even on the stored binary value.
- Concurrency: the check-then-save in the conflict-checked scheduling is not atomic; the model runs one request at a time.
- Authentication, sessions, flash messages and redirects: a view's outcome is its `Auth.Response`; the success and error flash messages are not modelled.
- FormsSeminar.Clean: Django's own field errors ("Select a valid choice", "This field is required") are not listed separately; an examiner or room that fails field cleaning shows up as the custom message of `clean`, which always accompanies it, so validity is unaffected. The same holds for `FormsPendaftaran.CleanMitra`, whose `mitraMissing` stands for the required-field error.
- Parsing of posted values: `int(...)` of a posted field is an input (`Common.PostedInt`), a date-time is an opaque integer or absent, and a posted form is either absent (invalid) or its cleaned fields.
- Facade.KoordinatorSeminarDetail: reads the cleaned keys `dosen_penguji_1`/`dosen_penguji_2`, which the scheduling form does not define; the model takes the two examiners as inputs. `_require_koordinator` is not defined in `facade.py`; the guard of the newer copy is used.
- The facade copy of `koordinator_dosen_kuota` (`portal/facade.py:512-556`) is not modelled; only the newer copy is, as `ViewsDosen.KoordinatorDosenKuota`. The facade copy differs from it in three ways. It calls `_require_koordinator`, which `facade.py` does not define. It passes the posted `dosen_id` to the lookup without `int(...)` and catches only `Dosen.DoesNotExist`, so a malformed id is an uncaught ValueError. It reports a missing lecturer ("Dosen tidak ditemukan.") and a bad quota ("Kuota harus berupa angka bulat >= 0.") with two separate messages.
- FormsSeminar.ParseId: Python's `int` also accepts surrounding blanks, a sign and underscores; only plain digit strings are read.
- SuratPenerimaan.Lower: only ASCII letters are lower-cased; Unicode case mapping is not modelled.
- FormsPendaftaran.CleanMitra: the form's other fields (period, type, letter) and the stripping of the new name are not modelled; the name is taken as already stripped.
- Primary keys are natural numbers (Django's are positive); a seminar's `jadwal` is optional, as its column is nullable.

## Findings

| source | as written | input that shows it | evidently intended | confidence | as-written member | corrected member |
|---|---|---|---|---|---|---|
| backend/portal/views_dosen.py:651-658 | the coordinator's scheduling saves any valid form without checking the room or the examiners | another seminar already in room "Ruang Rapat Prodi" at the same date-time | the conflict checks of `portal/facade.py:462-493` | high, not executed | Facade.UncheckedSchedulingDoubleBooks | Facade.KoordinatorSeminarDetail |
| backend/portal/forms_seminar.py:143 | compares with `raw_d1`/`raw_d2`, which are not defined | any posting for a seminar that has an advisor (advisor 1, examiner "2") | compare with `raw_dosen` from line 127 | high, not executed | FormsSeminar.AsWrittenFailsWithAdvisor | FormsSeminar.Clean |
| backend/portal/facade.py:366-388 | computes `is_locked` but saves a POST regardless, resetting the status to DIKIRIM | an eligible student whose seminar is DIJADWALKAN posts the form again | refuse a locked registration, as `portal/views_mahasiswa.py:334-339` does | medium, not executed | Facade.FacadeReopensLockedSeminar | Facade.MahasiswaSeminarPendaftaranLocked |
