/** The validator on the acceptance-letter upload of an internship
    application: the file extension (after lower-casing) must be one of four
    document or image formats, and the file must not exceed 2 MiB. The
    extension is taken the way Python's `os.path.splitext` takes it. */
module SuratPenerimaan {

  /** Index of the last `c` in `s`, or -1 (Python's `str.rfind`). */
  function RFind(s: string, c: char): (r: int)
    ensures -1 <= r < |s|
    ensures r >= 0 ==> s[r] == c
    ensures forall j :: r < j < |s| ==> s[j] != c
    decreases |s|
  {
    if |s| == 0 then -1
    else if s[|s| - 1] == c then |s| - 1
    else RFind(s[..|s| - 1], c)
  }

  /** Some character of `p[lo..hi]` is not a dot. */
  predicate HasNonDot(p: string, lo: int, hi: int)
    requires 0 <= lo <= hi <= |p|
  {
    exists j :: lo <= j < hi && p[j] != '.'
  }

  /** `os.path.splitext` for POSIX paths: the extension runs from the last
      dot of the last path component to the end, unless only dots precede
      that dot within the component (so ".pdf" has no extension). Root and
      extension always concatenate back to the path, and an extension is a
      dot followed by neither dots nor separators. */
  function SplitExt(p: string): (r: (string, string))
    ensures r.0 + r.1 == p
    ensures r.1 == [] || (r.1[0] == '.' && forall j :: 1 <= j < |r.1| ==> r.1[j] != '.' && r.1[j] != '/')
  {
    var sep := RFind(p, '/');
    var dot := RFind(p, '.');
    if dot > sep && HasNonDot(p, sep + 1, dot) then
      assert p[..dot] + p[dot..] == p;
      (p[..dot], p[dot..])
    else
      assert p + [] == p;
      (p, [])
  }

  /** `str.lower()` on the ASCII letters; every other character is kept. */
  function LowerChar(c: char): char
  {
    if 'A' <= c <= 'Z' then (c as int + 32) as char else c
  }

  function Lower(s: string): (r: string)
    ensures |r| == |s|
    ensures forall i :: 0 <= i < |s| ==> r[i] == LowerChar(s[i])
  {
    seq(|s|, i requires 0 <= i < |s| => LowerChar(s[i]))
  }

  const AllowedExtensions: seq<string> := [".pdf", ".jpg", ".jpeg", ".png"]
  const MaxSizeMb: nat := 2
  const MaxSizeBytes: nat := MaxSizeMb * 1024 * 1024

  datatype Verdict = Accepted | WrongFormat | TooLarge

  /** The message of the `ValidationError` each rejection raises. */
  function Message(v: Verdict): string
  {
    match v
    case Accepted => ""
    case WrongFormat => "File harus berformat PDF, JPG, JPEG, atau PNG."
    case TooLarge => "Ukuran file maksimal 2 MB."
  }

  /** The lower-cased extension the validator compares. */
  function Extension(name: string): string
  {
    Lower(SplitExt(name).1)
  }

  /** `validate_surat_penerimaan_file`: a wrong extension is reported before
      the size is looked at; a file of exactly 2 MiB is accepted. */
  function ValidateSuratPenerimaanFile(name: string, size: nat): (r: Verdict)
    ensures r == WrongFormat <==> Extension(name) !in AllowedExtensions
    ensures r == TooLarge <==> Extension(name) in AllowedExtensions && size > 2 * 1024 * 1024
    ensures r == Accepted <==> Extension(name) in AllowedExtensions && size <= 2 * 1024 * 1024
  {
    var ext := Extension(name);
    if ext !in AllowedExtensions then WrongFormat
    else if size > MaxSizeBytes then TooLarge
    else Accepted
  }

  /** An executable is refused. */
  lemma ExeRejected()
    ensures ValidateSuratPenerimaanFile("surat.exe", 5) == WrongFormat
  {
    var p := "surat.exe";
    assert p[5] == '.';
    assert RFind(p, '.') == 5;
    assert RFind(p, '/') == -1;
    assert p[0] != '.';
    assert SplitExt(p).1 == ".exe";
    assert Lower(".exe") == ".exe";
  }

  /** A PDF of exactly 2 MiB passes; one of 3 MiB is too large. */
  lemma SizeBoundary()
    ensures ValidateSuratPenerimaanFile("surat.pdf", 2 * 1024 * 1024) == Accepted
    ensures ValidateSuratPenerimaanFile("surat.pdf", 3 * 1024 * 1024) == TooLarge
  {
    var p := "surat.pdf";
    assert p[5] == '.';
    assert RFind(p, '.') == 5;
    assert RFind(p, '/') == -1;
    assert p[0] != '.';
    assert SplitExt(p).1 == ".pdf";
    assert Lower(".pdf") == ".pdf";
  }

  /** A name made of a dot and a format name has no extension at all. */
  lemma LeadingDotNameRejected()
    ensures ValidateSuratPenerimaanFile(".pdf", 1) == WrongFormat
  {
    var p := ".pdf";
    assert p[0] == '.' && p[1] == 'p' && p[2] == 'd' && p[3] == 'f';
    assert RFind(p, '.') == 0;
    assert RFind(p, '/') == -1;
    assert !HasNonDot(p, 0, 0);
    assert SplitExt(p).1 == [];
  }

  /** Whatever its size, a file with a wrong extension gets the format
      error, never the size error. */
  lemma FormatCheckedBeforeSize(name: string, size1: nat, size2: nat)
    requires ValidateSuratPenerimaanFile(name, size1) == WrongFormat
    ensures ValidateSuratPenerimaanFile(name, size2) == WrongFormat
  {
  }

  /** Lower-casing keeps every dot and separator where it was. */
  lemma RFindLower(s: string, c: char)
    requires c == '.' || c == '/'
    ensures RFind(Lower(s), c) == RFind(s, c)
  {
    assert forall i :: 0 <= i < |s| ==> (Lower(s)[i] == c <==> s[i] == c);
  }

  lemma LowerIdempotent(s: string)
    ensures Lower(Lower(s)) == Lower(s)
  {
  }

  /** Lower-casing changes no character into a dot or out of one. */
  lemma HasNonDotLower(p: string, lo: int, hi: int)
    requires 0 <= lo <= hi <= |p|
    ensures HasNonDot(Lower(p), lo, hi) == HasNonDot(p, lo, hi)
  {
    var low := Lower(p);
    if HasNonDot(p, lo, hi) {
      var j :| lo <= j < hi && p[j] != '.';
      assert low[j] == LowerChar(p[j]);
    }
    if HasNonDot(low, lo, hi) {
      var j :| lo <= j < hi && low[j] != '.';
      assert low[j] == LowerChar(p[j]);
    }
  }

  /** The extension of a lower-cased name is the lower-cased extension. */
  lemma SplitExtLower(p: string)
    ensures SplitExt(Lower(p)).1 == Lower(SplitExt(p).1)
  {
    RFindLower(p, '.');
    RFindLower(p, '/');
    var sep, dot := RFind(p, '/'), RFind(p, '.');
    if dot > sep {
      HasNonDotLower(p, sep + 1, dot);
      assert Lower(p)[dot..] == Lower(p[dot..]);
    }
  }

  /** The verdict does not depend on the case of the file name. */
  lemma CaseInsensitive(name: string, size: nat)
    ensures ValidateSuratPenerimaanFile(Lower(name), size) == ValidateSuratPenerimaanFile(name, size)
  {
    SplitExtLower(name);
    LowerIdempotent(SplitExt(name).1);
  }

  /** An upper-case extension is accepted like its lower-case form. */
  lemma UpperCaseExtensionAccepted()
    ensures ValidateSuratPenerimaanFile("SURAT.PDF", 1) == Accepted
  {
    var p := "SURAT.PDF";
    assert p[5] == '.';
    assert RFind(p, '.') == 5;
    assert RFind(p, '/') == -1;
    assert p[0] != '.';
    assert SplitExt(p).1 == ".PDF";
    assert Lower(".PDF") == ".pdf";
  }
}
