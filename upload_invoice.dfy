/**
 * Uploading an invoice file: the content type is checked against an allow-list
 * (case-insensitively), the decoded size against 10 MiB, and the bytes are
 * stored under `uploads/invoices/<timestamp>_<sanitized name><extension>`.
 *
 * Base64 decoding and the clock are outside the model: the decoded bytes and
 * the timestamp are parameters. The file system is a map from relative path to
 * contents.
 */
module Upload {
  import opened Wrappers
  import opened InputSchema

  newtype byte = x: int | 0 <= x < 256

  const UploadDir: string := "uploads/invoices/"

  /** The content types the server accepts, in lower case. */
  const AllowedTypes: seq<string> := ["application/pdf", "image/jpeg", "image/jpg", "image/png", "image/gif"]

  /** 10 MiB. */
  const MaxSize: nat := 10 * 1024 * 1024

  /** Lower-casing of ASCII letters; every other character is kept. */
  function LowerChar(c: char): (r: char)
    ensures 'A' <= c <= 'Z' ==> 'a' <= r <= 'z' && r as int == c as int + 32
    ensures !('A' <= c <= 'Z') ==> r == c
  {
    if 'A' <= c <= 'Z' then (c as int + 32) as char else c
  }

  function ToLower(s: string): (r: string)
    ensures |r| == |s|
    ensures forall i :: 0 <= i < |s| ==> r[i] == LowerChar(s[i])
  {
    seq(|s|, i requires 0 <= i < |s| => LowerChar(s[i]))
  }

  /** Lower-casing twice is lower-casing once. */
  lemma ToLowerIdempotent(s: string)
    ensures ToLower(ToLower(s)) == ToLower(s)
  {
  }

  predicate IsAllowedType(contentType: string): (b: bool)
    ensures b ==> contentType != ""
  {
    ToLower(contentType) in AllowedTypes
  }

  /** Every listed type passes as written, and the test ignores ASCII case. */
  lemma AllowedTypeCaseInsensitive(contentType: string)
    ensures contentType in AllowedTypes ==> IsAllowedType(contentType)
    ensures IsAllowedType(ToLower(contentType)) == IsAllowedType(contentType)
  {
    ToLowerIdempotent(contentType);
    if contentType in AllowedTypes {
      assert ToLower(contentType) == contentType;
    }
  }

  /** `getFileExtension`: the extension for the lower-cased content type, empty for any other type. */
  function FileExtension(contentType: string): (ext: string)
    ensures ext != "" <==> IsAllowedType(contentType)
    ensures ext == "" || ext == ".pdf" || ext == ".jpg" || ext == ".png" || ext == ".gif"
  {
    var t := ToLower(contentType);
    if t == "application/pdf" then ".pdf"
    else if t == "image/jpeg" || t == "image/jpg" then ".jpg"
    else if t == "image/png" then ".png"
    else if t == "image/gif" then ".gif"
    else ""
  }

  /** The extension table, for every spelling that differs only in letter case. */
  lemma FileExtensionTable(contentType: string)
    ensures ToLower(contentType) == "application/pdf" ==> FileExtension(contentType) == ".pdf"
    ensures ToLower(contentType) == "image/jpeg" ==> FileExtension(contentType) == ".jpg"
    ensures ToLower(contentType) == "image/jpg" ==> FileExtension(contentType) == ".jpg"
    ensures ToLower(contentType) == "image/png" ==> FileExtension(contentType) == ".png"
    ensures ToLower(contentType) == "image/gif" ==> FileExtension(contentType) == ".gif"
    ensures FileExtension(ToLower(contentType)) == FileExtension(contentType)
  {
    ToLowerIdempotent(contentType);
  }

  /** The position of the last occurrence of `c` in `s`. */
  function LastIndexOf(s: string, c: char): (r: Option<nat>)
    ensures r.Some? ==> r.value < |s| && s[r.value] == c && forall j :: r.value < j < |s| ==> s[j] != c
    ensures r.None? ==> forall j :: 0 <= j < |s| ==> s[j] != c
  {
    if |s| == 0 then None
    else if s[|s| - 1] == c then Some(|s| - 1)
    else LastIndexOf(s[..|s| - 1], c)
  }

  /** The last segment of a `/`-separated path: the suffix after the last `/`. */
  function BaseName(path: string): (r: string)
    ensures |r| <= |path| && r == path[|path| - |r|..]
    ensures |r| < |path| ==> path[|path| - |r| - 1] == '/'
    ensures forall j :: 0 <= j < |r| ==> r[j] != '/'
  {
    match LastIndexOf(path, '/')
    case None => path
    case Some(k) => path[k + 1..]
  }

  /** The `name` of `path.parse`: the base name without its last extension; a leading dot starts no extension. */
  function Stem(filename: string): (r: string)
    ensures |r| <= |BaseName(filename)| && r == BaseName(filename)[..|r|]
    ensures |r| < |BaseName(filename)| ==>
      && |r| > 0
      && BaseName(filename)[|r|] == '.'
      && forall j :: |r| < j < |BaseName(filename)| ==> BaseName(filename)[j] != '.'
    ensures |r| == |BaseName(filename)| ==> forall j :: 0 < j < |r| ==> r[j] != '.'
    ensures forall j :: 0 <= j < |r| ==> r[j] != '/'
  {
    var base := BaseName(filename);
    match LastIndexOf(base, '.')
    case Some(k) => if k == 0 then base else base[..k]
    case None => base
  }

  /** The characters `[a-zA-Z0-9_-]` the sanitizer keeps. */
  predicate SafeChar(c: char) {
    ('a' <= c <= 'z') || ('A' <= c <= 'Z') || ('0' <= c <= '9') || c == '_' || c == '-'
  }

  function SanitizeChar(c: char): char {
    if SafeChar(c) then c else '_'
  }

  const MaxNameLength: nat := 100

  /** `sanitizeFilename`: the stem with every unsafe character replaced by `_`, cut to 100 characters. */
  function SanitizeFilename(filename: string): (r: string)
    ensures |r| == if |Stem(filename)| <= MaxNameLength then |Stem(filename)| else MaxNameLength
    ensures forall j :: 0 <= j < |r| ==> SafeChar(r[j])
    ensures forall j :: 0 <= j < |r| ==> r[j] == (if SafeChar(Stem(filename)[j]) then Stem(filename)[j] else '_')
  {
    var replaced := SanitizeChars(Stem(filename));
    if |replaced| <= MaxNameLength then replaced else replaced[..MaxNameLength]
  }

  function SanitizeChars(s: string): (r: string)
    ensures |r| == |s|
    ensures forall j :: 0 <= j < |s| ==> r[j] == SanitizeChar(s[j])
  {
    seq(|s|, j requires 0 <= j < |s| => SanitizeChar(s[j]))
  }

  /** A name of safe characters has no separator and no dot, so it is its own stem. */
  lemma SafeNameIsStem(s: string)
    requires forall j :: 0 <= j < |s| ==> SafeChar(s[j])
    ensures Stem(s) == s
  {
    assert LastIndexOf(s, '/').None?;
    assert LastIndexOf(s, '.').None?;
  }

  /** Sanitizing a sanitized name changes nothing. */
  lemma SanitizeIdempotent(filename: string)
    ensures SanitizeFilename(SanitizeFilename(filename)) == SanitizeFilename(filename)
  {
    var once := SanitizeFilename(filename);
    SafeNameIsStem(once);
  }

  function DigitChar(d: nat): (c: char)
    requires d < 10
    ensures '0' <= c <= '9' && c as int - '0' as int == d
  {
    ('0' as int + d) as char
  }

  /** The decimal text of a timestamp, as a template literal prints it. */
  function NatToDecimal(n: nat): (r: string)
    ensures |r| >= 1
    ensures forall j :: 0 <= j < |r| ==> '0' <= r[j] <= '9'
  {
    if n < 10 then [DigitChar(n)] else NatToDecimal(n / 10) + [DigitChar(n % 10)]
  }

  /** The number a digit string denotes. */
  function DecimalValue(s: string): nat
    requires forall j :: 0 <= j < |s| ==> '0' <= s[j] <= '9'
  {
    if s == [] then 0 else 10 * DecimalValue(s[..|s| - 1]) + (s[|s| - 1] as int - '0' as int)
  }

  /** The decimal text denotes the number it was printed from. */
  lemma {:induction false} DecimalRoundTrip(n: nat)
    ensures DecimalValue(NatToDecimal(n)) == n
  {
    if n >= 10 {
      var s := NatToDecimal(n);
      assert s[..|s| - 1] == NatToDecimal(n / 10);
      DecimalRoundTrip(n / 10);
    }
  }

  /**
   * The relative path the file is stored under: `uploads/invoices/`, the
   * timestamp digits, `_`, the sanitized name and the content type's extension.
   */
  function FilePath(timestamp: nat, filename: string, contentType: string): (p: string)
    ensures var d := NatToDecimal(timestamp);
      && |p| == |UploadDir| + |d| + 1 + |SanitizeFilename(filename)| + |FileExtension(contentType)|
      && p[..|UploadDir|] == UploadDir
      && p[|UploadDir|..|UploadDir| + |d|] == d
      && p[|UploadDir| + |d|] == '_'
      && p[|UploadDir| + |d| + 1..|p| - |FileExtension(contentType)|] == SanitizeFilename(filename)
      && p[|p| - |FileExtension(contentType)|..] == FileExtension(contentType)
  {
    var d := NatToDecimal(timestamp);
    var name := SanitizeFilename(filename);
    var ext := FileExtension(contentType);
    JoinedParts(UploadDir, d, name, ext);
    UploadDir + d + "_" + name + ext
  }

  /** Where each part of `dir + digits + "_" + name + ext` sits. */
  lemma JoinedParts(dir: string, digits: string, name: string, ext: string)
    ensures var p := dir + digits + "_" + name + ext;
      && |p| == |dir| + |digits| + 1 + |name| + |ext|
      && p[..|dir|] == dir
      && p[|dir|..|dir| + |digits|] == digits
      && p[|dir| + |digits|] == '_'
      && p[|dir| + |digits| + 1..|p| - |ext|] == name
      && p[|p| - |ext|..] == ext
  {
    var p := dir + digits + "_" + name + ext;
    assert p[|dir| + |digits| + 1..|p| - |ext|] == name;
    assert p[|p| - |ext|..] == ext;
  }

  /** A digit string read at `offset` cannot run past a `_` found at `offset + n`. */
  lemma DigitsStopAtUnderscore(p: string, offset: nat, d: string, n: nat)
    requires offset + |d| <= |p| && p[offset..offset + |d|] == d
    requires forall j :: 0 <= j < |d| ==> '0' <= d[j] <= '9'
    requires offset + n < |p| && p[offset + n] == '_'
    ensures |d| <= n
  {
  }

  /** Two digit runs read at the same offset, each followed by `_`, are the same run. */
  lemma DigitRunsAgree(p: string, offset: nat, d1: string, d2: string)
    requires offset + |d1| < |p| && p[offset..offset + |d1|] == d1 && p[offset + |d1|] == '_'
    requires offset + |d2| < |p| && p[offset..offset + |d2|] == d2 && p[offset + |d2|] == '_'
    requires forall j :: 0 <= j < |d1| ==> '0' <= d1[j] <= '9'
    requires forall j :: 0 <= j < |d2| ==> '0' <= d2[j] <= '9'
    ensures d1 == d2
  {
    DigitsStopAtUnderscore(p, offset, d2, |d1|);
    DigitsStopAtUnderscore(p, offset, d1, |d2|);
  }

  /** The part of a path that the uniqueness argument reads: the digits and the `_` after them. */
  lemma FilePathDigits(t: nat, f: string, c: string)
    ensures var p, d := FilePath(t, f, c), NatToDecimal(t);
      && |UploadDir| + |d| < |p|
      && p[|UploadDir|..|UploadDir| + |d|] == d
      && p[|UploadDir| + |d|] == '_'
  {
  }

  /** A path whose digits after `uploads/invoices/` print both timestamps was made at one timestamp. */
  lemma SameDigitsSameTimestamp(p: string, t1: nat, t2: nat)
    requires |UploadDir| + |NatToDecimal(t1)| < |p| && p[|UploadDir| + |NatToDecimal(t1)|] == '_'
    requires p[|UploadDir|..|UploadDir| + |NatToDecimal(t1)|] == NatToDecimal(t1)
    requires |UploadDir| + |NatToDecimal(t2)| < |p| && p[|UploadDir| + |NatToDecimal(t2)|] == '_'
    requires p[|UploadDir|..|UploadDir| + |NatToDecimal(t2)|] == NatToDecimal(t2)
    ensures t1 == t2
  {
    DigitRunsAgree(p, |UploadDir|, NatToDecimal(t1), NatToDecimal(t2));
    DecimalRoundTrip(t1);
    DecimalRoundTrip(t2);
  }

  /** Paths made at different timestamps are different, whatever the names and types. */
  lemma FilePathUnique(t1: nat, f1: string, c1: string, t2: nat, f2: string, c2: string)
    requires FilePath(t1, f1, c1) == FilePath(t2, f2, c2)
    ensures t1 == t2
  {
    FilePathDigits(t1, f1, c1);
    FilePathDigits(t2, f2, c2);
    SameDigitsSameTimestamp(FilePath(t1, f1, c1), t1, t2);
  }

  datatype UploadError = UnsupportedFileType(contentType: string) | FileTooLarge(size: nat)

  /** `{ file_path, success }`. */
  datatype UploadResult = UploadResult(filePath: string, success: bool)

  /** The first check an upload fails, in the order the handler makes them: type, then size. */
  function UploadCheck(contentType: string, size: nat): (r: Option<UploadError>)
    ensures r.None? <==> IsAllowedType(contentType) && size <= MaxSize
    ensures !IsAllowedType(contentType) ==> r == Some(UnsupportedFileType(contentType))
    ensures IsAllowedType(contentType) && size > MaxSize ==> r == Some(FileTooLarge(size))
  {
    if !IsAllowedType(contentType) then Some(UnsupportedFileType(contentType))
    else if size > MaxSize then Some(FileTooLarge(size))
    else None
  }

  /** Exactly 10 MiB of an allowed type passes; one byte more does not. */
  lemma SizeBoundary(contentType: string)
    requires IsAllowedType(contentType)
    ensures UploadCheck(contentType, MaxSize).None?
    ensures UploadCheck(contentType, MaxSize + 1) == Some(FileTooLarge(MaxSize + 1))
  {
  }

  /** The uploaded files, by path relative to the working directory. */
  class FileStore {
    var files: map<string, seq<byte>>

    constructor()
      ensures files == map[]
    {
      files := map[];
    }

    /** `uploadInvoice`: reject or write the decoded bytes under a fresh path and report it. */
    method UploadInvoice(input: UploadInvoiceInput, decoded: seq<byte>, timestamp: nat)
      returns (r: Result<UploadResult, UploadError>)
      modifies this
      ensures UploadCheck(input.contentType, |decoded|).Some? ==>
        r == Failure(UploadCheck(input.contentType, |decoded|).value) && files == old(files)
      ensures UploadCheck(input.contentType, |decoded|).None? ==>
        var path := FilePath(timestamp, input.filename, input.contentType);
        r == Success(UploadResult(path, true)) && files == old(files)[path := decoded]
    {
      if !IsAllowedType(input.contentType) {
        return Failure(UnsupportedFileType(input.contentType));
      }
      if |decoded| > MaxSize {
        return Failure(FileTooLarge(|decoded|));
      }
      var relativePath := FilePath(timestamp, input.filename, input.contentType);
      files := files[relativePath := decoded];
      return Success(UploadResult(relativePath, true));
    }
  }

  /**
   * The schema's non-empty content type adds nothing to the handler's own
   * check: an empty content type is refused as unsupported, whatever the size.
   */
  lemma SchemaContentTypeSubsumed(u: UploadInvoiceInput, size: nat)
    requires u.filename != "" && u.fileData != ""
    ensures !ValidUploadInvoiceInput(u) ==> UploadCheck(u.contentType, size) == Some(UnsupportedFileType(u.contentType))
  {
  }
}
