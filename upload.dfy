/**
 * The image-upload middleware: multer disk storage that writes every file
 * into `uploads/` under the name `<Date.now()>-<originalname>`, and a file
 * filter that lets through only files whose MIME type starts with `image/`.
 * The clock is a parameter (a millisecond timestamp).
 */
module Upload {
  import opened Wrappers

  /** Directory every accepted file is written to. */
  const UploadDir: string := "uploads/"
  /** MIME prefix the filter accepts. */
  const ImagePrefix: string := "image/"
  /** Error passed to multer's callback for a rejected file. */
  const NotAnImage: string := "Only images are allowed!"

  predicate IsDigit(c: char) { '0' <= c <= '9' }

  predicate AllDigits(s: string) { forall i :: 0 <= i < |s| ==> IsDigit(s[i]) }

  function DigitChar(d: nat): (c: char)
    requires d < 10
    ensures IsDigit(c)
  {
    ('0' as int + d) as char
  }

  function DigitValue(c: char): (d: nat)
    requires IsDigit(c)
    ensures d < 10 && DigitChar(d) == c
  {
    c as int - '0' as int
  }

  /** The text JavaScript gives a non-negative integer number when it is
      concatenated to a string: its decimal digits, without leading zeros. */
  function Decimal(n: nat): (s: string)
    ensures |s| > 0 && AllDigits(s)
    ensures |s| > 1 ==> s[0] != '0'
  {
    if n < 10 then [DigitChar(n)] else Decimal(n / 10) + [DigitChar(n % 10)]
  }

  /** Reads a run of decimal digits back as a number. */
  function ParseDecimal(s: string): nat
    requires AllDigits(s)
  {
    if s == [] then 0 else ParseDecimal(s[..|s| - 1]) * 10 + DigitValue(s[|s| - 1])
  }

  /** Reading back the decimal text of a number gives that number. */
  lemma {:induction false} ParseDecimalOfDecimal(n: nat)
    ensures ParseDecimal(Decimal(n)) == n
  {
    if n >= 10 {
      var s := Decimal(n);
      assert s[..|s| - 1] == Decimal(n / 10);
      ParseDecimalOfDecimal(n / 10);
    }
  }

  /** The name multer stores an upload under: the upload time in milliseconds,
      a dash, then the client's original file name. */
  function StoredFilename(timestamp: nat, originalname: string): (f: string)
    ensures |f| > |originalname|
    ensures f[|f| - |originalname|..] == originalname
    ensures f[..|f| - |originalname|] == Decimal(timestamp) + "-"
  {
    Decimal(timestamp) + "-" + originalname
  }

  /** Where the file is written on disk: always under the upload directory. */
  function DiskPath(timestamp: nat, originalname: string): (p: string)
    ensures |p| > |UploadDir| + |originalname|
    ensures p[..|UploadDir|] == UploadDir
    ensures p[|p| - |originalname|..] == originalname
  {
    UploadDir + StoredFilename(timestamp, originalname)
  }

  /** Position of the first `c` in `s`, or `|s|` when there is none. */
  function IndexOf(s: string, c: char): (i: nat)
    ensures i <= |s|
    ensures i < |s| ==> s[i] == c
    ensures forall j :: 0 <= j < i ==> s[j] != c
  {
    if s == [] then 0 else if s[0] == c then 0 else 1 + IndexOf(s[1..], c)
  }

  /** Splits a stored filename back into its upload time and original name:
      the time is the run of digits before the first dash. */
  function ParseStoredFilename(f: string): Option<(nat, string)>
  {
    var i := IndexOf(f, '-');
    if i == |f| || i == 0 || !AllDigits(f[..i]) then None
    else Some((ParseDecimal(f[..i]), f[i + 1..]))
  }

  /** A stored filename determines the upload time and original name it was
      made from. */
  lemma {:induction false} ParseStoredFilenameOfStoredFilename(timestamp: nat, originalname: string)
    ensures ParseStoredFilename(StoredFilename(timestamp, originalname)) == Some((timestamp, originalname))
  {
    var d := Decimal(timestamp);
    var f := StoredFilename(timestamp, originalname);
    assert f == d + "-" + originalname;
    assert f[|d|] == '-';
    assert forall j :: 0 <= j < |d| ==> f[j] == d[j];
    assert IndexOf(f, '-') == |d|;
    assert f[..|d|] == d;
    assert f[|d| + 1..] == originalname;
    ParseDecimalOfDecimal(timestamp);
  }

  /** Two uploads get the same stored name only when both the upload time and
      the original name agree. */
  lemma StoredFilenameInjective(t1: nat, n1: string, t2: nat, n2: string)
    requires StoredFilename(t1, n1) == StoredFilename(t2, n2)
    ensures t1 == t2 && n1 == n2
  {
    ParseStoredFilenameOfStoredFilename(t1, n1);
    ParseStoredFilenameOfStoredFilename(t2, n2);
  }

  predicate StartsWith(s: string, prefix: string)
  {
    |prefix| <= |s| && s[..|prefix|] == prefix
  }

  /** What the filter tells multer: accept, or fail with an error and `false`. */
  datatype FilterDecision = Accept | Reject(message: string)

  /** The upload filter: a file passes exactly when its MIME type starts with `image/`. */
  function FileFilter(mimetype: string): (d: FilterDecision)
    ensures d.Reject? ==> d.message == NotAnImage
  {
    if StartsWith(mimetype, ImagePrefix) then Accept else Reject(NotAnImage)
  }

  /** Every `image/<subtype>` MIME type is accepted, whatever the subtype. */
  lemma FileFilterAcceptsImages(subtype: string)
    ensures FileFilter(ImagePrefix + subtype) == Accept
  {
  }

  /** An accepted MIME type is `image/` followed by some subtype, and every
      other MIME type is rejected with the "Only images are allowed!" error. */
  lemma FileFilterOnlyImages(mimetype: string)
    ensures FileFilter(mimetype) == Accept ==> mimetype == ImagePrefix + mimetype[|ImagePrefix|..]
    ensures FileFilter(mimetype) != Accept ==> FileFilter(mimetype) == Reject(NotAnImage)
  {
  }
}
