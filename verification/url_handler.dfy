/** `URLHandler`: the file extension of a URL, the URL test, the decision
    of where a file argument is read from, and the Base64 encoding of the
    file's bytes (section 4 of RFC 4648). Downloading, temporary names and
    the file system are parameters. */
module UrlHandler {
  import opened Wrappers
  import Providers

  type byte = x: int | 0 <= x < 256

  // ------------------------------------------------------------- extension

  /** `find_last_of(c)`: the index of the last `c`, if any. */
  function LastIndex(s: string, c: char): (r: Option<nat>)
    ensures r.Some? ==> r.value < |s| && s[r.value] == c && forall j :: r.value < j < |s| ==> s[j] != c
    ensures r.None? ==> forall j :: 0 <= j < |s| ==> s[j] != c
  {
    if |s| == 0 then None
    else if s[|s| - 1] == c then Some(|s| - 1)
    else LastIndex(s[..|s| - 1], c)
  }

  /** `find_first_of(c, from)`: the index of the first `c` at or after
      `from`, `|s|` standing for `npos`. */
  function FirstIndexFrom(s: string, c: char, from: nat): (i: nat)
    requires from <= |s|
    ensures from <= i <= |s| && (i < |s| ==> s[i] == c) && forall j :: from <= j < i ==> s[j] != c
    decreases |s| - from
  {
    if from == |s| || s[from] == c then from else FirstIndexFrom(s, c, from + 1)
  }

  /** `ExtractFileExtension`: from the last `.` up to the first `?` after
      it, provided that `.` comes after the last `/`; otherwise empty. */
  function ExtractFileExtension(url: string): (ext: string)
    ensures ext == "" || (ext[0] == '.' && forall j :: 1 <= j < |ext| ==> ext[j] != '.' && ext[j] != '/' && ext[j] != '?')
  {
    match LastIndex(url, '.')
    case None => ""
    case Some(dot) =>
      match LastIndex(url, '/')
      case Some(slash) => if dot > slash then Tail(url, dot) else ""
      case None => Tail(url, dot)
  }

  function Tail(url: string, dot: nat): (ext: string)
    requires dot < |url| && url[dot] == '.' && forall j :: dot < j < |url| ==> url[j] != '.'
    requires forall j :: dot < j < |url| ==> url[j] != '/'
    ensures ext == "" || (ext[0] == '.' && forall j :: 1 <= j < |ext| ==> ext[j] != '.' && ext[j] != '/' && ext[j] != '?')
  {
    var q := FirstIndexFrom(url, '?', dot);
    assert forall j :: 1 <= j < q - dot ==> url[dot..q][j] == url[dot + j];
    url[dot..q]
  }

  /** A suffix without `.`, `/` or `?`. */
  predicate Plain(w: string) {
    forall j :: 0 <= j < |w| ==> w[j] != '.' && w[j] != '/' && w[j] != '?'
  }

  /** A query string: empty, or a `?` followed by text without `.` or
      `/`. */
  predicate Query(q: string) {
    q == "" || (q[0] == '?' && forall j :: 0 <= j < |q| ==> q[j] != '.' && q[j] != '/')
  }

  /** Whatever precedes it, a last path segment ending in `.w` (and an
      optional query) has the extension `.w`. */
  lemma ExtensionOfFileName(base: string, w: string, query: string)
    requires Plain(w) && Query(query)
    ensures ExtractFileExtension(base + "." + w + query) == "." + w
  {
    var ext := "." + w;
    var url := base + ext + query;
    var dot, end := |base|, |base| + |ext|;
    assert url[dot] == '.';
    assert url[dot..end] == ext;
    forall j | dot < j < |url|
      ensures url[j] != '.' && url[j] != '/' && (j < end ==> url[j] != '?')
    {
      if j < end {
        assert url[j] == w[j - dot - 1];
      } else {
        assert url[j] == query[j - end];
      }
    }
    LastIndexIs(url, '.', dot);
    if query != "" {
      assert url[end] == query[0];
    }
    var q := FirstIndexFrom(url, '?', dot);
    assert q == end;
    assert LastIndex(url, '/').None? || LastIndex(url, '/').value < dot;
    assert Tail(url, dot) == ext;
    assert url == base + "." + w + query;
  }

  /** `LastIndex` finds the last occurrence. */
  lemma LastIndexIs(s: string, c: char, k: nat)
    requires k < |s| && s[k] == c && forall j :: k < j < |s| ==> s[j] != c
    ensures LastIndex(s, c) == Some(k)
  {
  }

  /** A URL whose last `/` follows its last `.` has no extension. */
  lemma NoExtensionAfterSlash(url: string, slash: nat)
    requires slash < |url| && url[slash] == '/' && forall j :: slash < j < |url| ==> url[j] != '.'
    ensures ExtractFileExtension(url) == ""
  {
  }

  // ------------------------------------------------------------------- url

  /** `IsUrl`: the regular expression `^https?://` finds a match. */
  predicate IsUrl(path: string) {
    (|path| >= 7 && path[..7] == "http://") || (|path| >= 8 && path[..8] == "https://")
  }

  /** Exactly the two web schemes count, whatever follows them; a local
      path never starts with one. */
  lemma UrlSchemes(rest: string)
    ensures IsUrl("http://" + rest) && IsUrl("https://" + rest)
    ensures !IsUrl("/" + rest) && !IsUrl("file://" + rest) && !IsUrl("ftp://" + rest)
  {
    assert ("http://" + rest)[..7] == "http://";
    assert ("https://" + rest)[..8] == "https://";
    assert ("file://" + rest)[0] == 'f';
    assert ("ftp://" + rest)[0] == 'f';
    assert ("/" + rest)[0] == '/';
  }

  // ------------------------------------------------------------ resolution

  /** The file system and the network as `ResolveFilePath` sees them:
      `download` is `DownloadFileToTemp` (the temporary path, or `""` when
      the download failed), `valid` is `ValidateFile` (the file opens and
      is not empty) and `read` is the file's bytes, when it can be read in
      full. */
  datatype Files = Files(download: string -> string, valid: string -> bool, read: string -> Option<seq<byte>>)

  /** `FilePathResult`. */
  datatype Resolved = Resolved(path: string, isTemp: bool)

  /** `ResolveFilePath`, with the temporary files it removes. A URL is
      downloaded to a temporary file, anything else is a local path; the
      file must then be valid, and a downloaded file that is not is
      removed. */
  function ResolveFilePath(arg: string, fs: Files): (r: (Result<Resolved>, seq<string>))
    ensures r.0.Ok? <==> (if IsUrl(arg) then fs.download(arg) != "" && fs.valid(fs.download(arg)) else fs.valid(arg))
    ensures r.0.Ok? ==> r.0.value == (if IsUrl(arg) then Resolved(fs.download(arg), true) else Resolved(arg, false))
    ensures r.0.Ok? ==> r.1 == []
    ensures r.0.Err? ==> r.0.error == (if IsUrl(arg) && fs.download(arg) == "" then "Failed to download file: " else "Invalid file: ") + arg
    ensures r.1 != [] <==> IsUrl(arg) && fs.download(arg) != "" && !fs.valid(fs.download(arg))
    ensures r.1 != [] ==> r.1 == [fs.download(arg)]
  {
    var resolved :=
      if IsUrl(arg) then
        var path := fs.download(arg);
        if path == "" then Err("Failed to download file: " + arg) else Ok(Resolved(path, true))
      else Ok(Resolved(arg, false));
    match resolved
    case Err(e) => (Err(e), [])
    case Ok(res) =>
      if !fs.valid(res.path) then
        (Err("Invalid file: " + arg), if res.isTemp then [res.path] else [])
      else (Ok(res), [])
  }

  /** `ReadFileToBase64`: the Base64 text of the file, empty when it
      cannot be read in full or is empty. */
  function ReadFileToBase64(path: string, fs: Files): (s: string)
    ensures s == "" <==> fs.read(path).None? || fs.read(path).value == []
    ensures s != "" ==> Decode(s) == fs.read(path).value
  {
    match fs.read(path)
    case None => ""
    case Some(bytes) =>
      EncodedLength(bytes);
      DecodeEncode(bytes);
      Encode(bytes)
  }

  /** `Base64Result` without the temporary path, which is always cleared
      before it is returned. */
  datatype Base64Result = Base64Result(content: string, isTemp: bool)

  /** `ResolveFileToBase64`, with the temporary files it removes: like
      `ResolveFilePath`, then the file is read and encoded, and a
      downloaded file is removed on every path once it exists. */
  function ResolveFileToBase64(arg: string, fs: Files): (r: (Result<Base64Result>, seq<string>))
    ensures IsUrl(arg) && fs.download(arg) != "" ==> r.1 == [fs.download(arg)]
    ensures !(IsUrl(arg) && fs.download(arg) != "") ==> r.1 == []
    ensures r.0.Ok? ==> r.0.value.content != "" && r.0.value.isTemp == IsUrl(arg)
    ensures r.0.Ok? ==> var path := if IsUrl(arg) then fs.download(arg) else arg;
      fs.read(path).Some? && Decode(r.0.value.content) == fs.read(path).value
    ensures ResolveFilePath(arg, fs).0.Err? ==> r.0 == Err(ResolveFilePath(arg, fs).0.error)
    ensures ResolveFilePath(arg, fs).0.Ok? && r.0.Err? ==> r.0.error == "Failed to read file: " + arg
  {
    var (resolved, removed) := ResolveFilePath(arg, fs);
    match resolved
    case Err(e) => (Err(e), removed)
    case Ok(res) =>
      var content := ReadFileToBase64(res.path, fs);
      var cleanup := if res.isTemp then [res.path] else [];
      if content == "" then (Err("Failed to read file: " + arg), cleanup)
      else (Ok(Base64Result(content, res.isTemp)), cleanup)
  }

  // --------------------------------------------------------------- base64

  /** A 6-bit value: one character's worth of input. */
  type sextet = x: int | 0 <= x < 64

  /** One character position of the encoded text: six bits of the input,
      or padding for a position that lies wholly past its end. */
  datatype Sextet = Bits(v: sextet) | Pad

  /** The Base64 alphabet of section 4 of RFC 4648, `A`-`Z`, `a`-`z`,
      `0`-`9`, `+` and `/`: the character standing for a 6-bit value. */
  function Digit(v: sextet): (c: char)
  {
    if v < 26 then (('A' as int) + v) as char
    else if v < 52 then (('a' as int) + v - 26) as char
    else if v < 62 then (('0' as int) + v - 52) as char
    else if v == 62 then '+'
    else '/'
  }

  /** The value a character of the alphabet stands for; 0 for anything
      else, padding included. */
  function ValueOf(c: char): (v: sextet)
  {
    if 'A' <= c <= 'Z' then (c as int) - ('A' as int)
    else if 'a' <= c <= 'z' then (c as int) - ('a' as int) + 26
    else if '0' <= c <= '9' then (c as int) - ('0' as int) + 52
    else if c == '+' then 62
    else if c == '/' then 63
    else 0
  }

  /** The character written for one position: its digit, or `=`. */
  function Letter(x: Sextet): (c: char)
  {
    match x
    case Bits(v) => Digit(v)
    case Pad => '='
  }

  /** Only the padding is written as `=`, a digit reads back as its value,
      and every character passes the library's `is_base64` check. */
  lemma LetterValue(x: Sextet)
    ensures Letter(x) == '=' <==> x.Pad?
    ensures x.Bits? ==> ValueOf(Letter(x)) == x.v
    ensures Providers.IsBase64Char(Letter(x))
  {
  }

  /** The characters of a run of positions. */
  function Spell(xs: seq<Sextet>): (s: string)
    ensures |s| == |xs| && forall i :: 0 <= i < |xs| ==> s[i] == Letter(xs[i])
    decreases |xs|
  {
    if xs == [] then "" else [Letter(xs[0])] + Spell(xs[1..])
  }

  /** Spelling a run in two parts. */
  lemma SpellAppend(xs: seq<Sextet>, ys: seq<Sextet>)
    ensures Spell(xs + ys) == Spell(xs) + Spell(ys)
  {
  }

  /** The four positions of a group of one to three bytes, as section 4 of
      RFC 4648 cuts its 24 bits: the high six bits of the first byte; its
      low two and the high four of the second; the low four of the second
      and the high two of the third; the low six of the third. A missing
      byte counts as zero, and a position that only covers missing bytes
      is padding. */
  function Sextets(group: seq<byte>): (xs: seq<Sextet>)
    requires 0 < |group| <= 3
    ensures |xs| == 4 && xs[0].Bits? && xs[1].Bits?
    ensures (xs[2].Pad? <==> |group| == 1) && (xs[3].Pad? <==> |group| < 3)
  {
    var a := group[0];
    var b := if |group| > 1 then group[1] else 0;
    var c := if |group| > 2 then group[2] else 0;
    [Bits(a / 4), Bits(a % 4 * 16 + b / 16),
     if |group| > 1 then Bits(b % 16 * 4 + c / 64) else Pad,
     if |group| > 2 then Bits(c % 64) else Pad]
  }

  /** The positions of the whole input: its groups of three in order, the
      last group possibly short. */
  function Positions(bytes: seq<byte>): (xs: seq<Sextet>)
    decreases |bytes|
  {
    if |bytes| == 0 then []
    else if |bytes| <= 3 then Sextets(bytes)
    else Sextets(bytes[..3]) + Positions(bytes[3..])
  }

  /** The four characters of one group. */
  function Quad(group: seq<byte>): (s: string)
    requires 0 < |group| <= 3
  {
    Spell(Sextets(group))
  }

  /** The Base64 text of `bytes`. */
  function Encode(bytes: seq<byte>): (s: string)
  {
    Spell(Positions(bytes))
  }

  /** The bytes of one four-character group, cut to one byte for `xx==`
      and two for `xxx=`. */
  function Unquad(q: string): (bytes: seq<byte>)
    requires |q| == 4
  {
    var s0, s1, s2, s3 := ValueOf(q[0]), ValueOf(q[1]), ValueOf(q[2]), ValueOf(q[3]);
    var all: seq<byte> := [s0 * 4 + s1 / 16, s1 % 16 * 16 + s2 / 4, s2 % 4 * 64 + s3];
    if q[2] == '=' then all[..1] else if q[3] == '=' then all[..2] else all
  }

  /** Base64 decoding of whole four-character groups; a trailing partial
      group is ignored. */
  function Decode(s: string): (bytes: seq<byte>)
    decreases |s|
  {
    if |s| < 4 then [] else Unquad(s[..4]) + Decode(s[4..])
  }

  /** Each group decodes to the bytes it encodes. */
  lemma UnquadQuad(group: seq<byte>)
    requires 0 < |group| <= 3
    ensures Unquad(Quad(group)) == group
  {
    var a := group[0];
    var b := if |group| > 1 then group[1] else 0;
    var c := if |group| > 2 then group[2] else 0;
    var xs := Sextets(group);
    LetterValue(xs[0]);
    LetterValue(xs[1]);
    LetterValue(xs[2]);
    LetterValue(xs[3]);
    RegroupBytes(a, b, c);
  }

  /** The three bytes spelled again from the four 6-bit values of section
      4 of RFC 4648. */
  lemma RegroupBytes(a: byte, b: byte, c: byte)
    ensures var s0, s1, s2, s3 := a / 4, a % 4 * 16 + b / 16, b % 16 * 4 + c / 64, c % 64;
      && s0 * 4 + s1 / 16 == a
      && s1 % 16 * 16 + s2 / 4 == b
      && s2 % 4 * 64 + s3 == c
  {
    var s1, s2 := a % 4 * 16 + b / 16, b % 16 * 4 + c / 64;
    DivMod(s1, 16, a % 4, b / 16);
    DivMod(s2, 4, b % 16, c / 64);
  }

  /** The source's way of cutting a group: shifting the 24-bit number
      `a << 16 | b << 8 | c` right by 18, 12, 6 and 0 bits and masking six
      bits gives the four values of section 4 of RFC 4648. */
  lemma TripleDigits(a: byte, b: byte, c: byte)
    ensures var t: int := a * 0x1_0000 + b * 0x100 + c;
      && t / 0x4_0000 % 64 == a / 4
      && t / 0x1000 % 64 == a % 4 * 16 + b / 16
      && t / 64 % 64 == b % 16 * 4 + c / 64
      && t % 64 == c % 64
  {
    FirstDigit(a, b, c);
    SecondDigit(a, b, c);
    ThirdDigit(a, b, c);
    DivMod(a * 0x1_0000 + b * 0x100 + c, 64, a * 0x400 + b * 4 + c / 64, c % 64);
  }

  lemma FirstDigit(a: byte, b: byte, c: byte)
    ensures (a * 0x1_0000 + b * 0x100 + c) / 0x4_0000 % 64 == a / 4
  {
    var t: int := a * 0x1_0000 + b * 0x100 + c;
    DivMod(t, 0x4_0000, a / 4, a % 4 * 0x1_0000 + b * 0x100 + c);
    DivMod(a / 4, 64, 0, a / 4);
  }
  lemma SecondDigit(a: byte, b: byte, c: byte)
    ensures (a * 0x1_0000 + b * 0x100 + c) / 0x1000 % 64 == a % 4 * 16 + b / 16
  {
    var t: int := a * 0x1_0000 + b * 0x100 + c;
    var q := a * 16 + b / 16;
    DivMod(t, 0x1000, q, b % 16 * 0x100 + c);
    DivMod(q, 64, a / 4, a % 4 * 16 + b / 16);
  }
  lemma ThirdDigit(a: byte, b: byte, c: byte)
    ensures (a * 0x1_0000 + b * 0x100 + c) / 64 % 64 == b % 16 * 4 + c / 64
  {
    var t: int := a * 0x1_0000 + b * 0x100 + c;
    var q := a * 0x400 + b * 4 + c / 64;
    DivMod(t, 64, q, c % 64);
    DivMod(q, 64, a * 16 + b / 16, b % 16 * 4 + c / 64);
  }
  /** Quotient and remainder by one of the powers of two the encoding
      divides by. */
  lemma DivMod(x: int, d: int, q: int, r: int)
    requires d == 4 || d == 16 || d == 64 || d == 0x1000 || d == 0x4_0000
    requires x == q * d + r && 0 <= r < d
    ensures x / d == q && x % d == r
  {
    if d == 4 {
    } else if d == 16 {
    } else if d == 64 {
    } else if d == 0x1000 {
    } else {
    }
  }

  /** Decoding undoes encoding, for every byte string. */
  lemma {:induction false} DecodeEncode(bytes: seq<byte>)
    ensures Decode(Encode(bytes)) == bytes
    decreases |bytes|
  {
    if 0 < |bytes| <= 3 {
      UnquadQuad(bytes);
      var q := Quad(bytes);
      assert q[..4] == q && Decode(q[4..]) == [];
    } else if |bytes| > 3 {
      var q, rest := Quad(bytes[..3]), Encode(bytes[3..]);
      SpellAppend(Sextets(bytes[..3]), Positions(bytes[3..]));
      assert (q + rest)[..4] == q && (q + rest)[4..] == rest;
      UnquadQuad(bytes[..3]);
      DecodeEncode(bytes[3..]);
      assert bytes[..3] + bytes[3..] == bytes;
    }
  }

  /** Four positions for every group of three bytes, a started group
      counting whole. */
  lemma {:induction false} PositionsLength(bytes: seq<byte>)
    ensures |Positions(bytes)| == 4 * ((|bytes| + 2) / 3)
    decreases |bytes|
  {
    if |bytes| > 3 {
      PositionsLength(bytes[3..]);
      assert (|bytes| + 2) / 3 == (|bytes| - 3 + 2) / 3 + 1;
    }
  }

  /** The text is four characters for every group of three bytes, a
      started group counting whole. */
  lemma EncodedLength(bytes: seq<byte>)
    ensures |Encode(bytes)| == 4 * ((|bytes| + 2) / 3)
  {
    PositionsLength(bytes);
  }

  /** Every character is a Base64 character, so the library's `is_base64`
      accepts every non-empty result. */
  lemma EncodedChars(bytes: seq<byte>)
    ensures forall i :: 0 <= i < |Encode(bytes)| ==> Providers.IsBase64Char(Encode(bytes)[i])
    ensures |bytes| > 0 ==> Providers.IsBase64(Encode(bytes))
  {
    var xs := Positions(bytes);
    forall i | 0 <= i < |xs|
      ensures Providers.IsBase64Char(Encode(bytes)[i])
    {
      LetterValue(xs[i]);
    }
    EncodedLength(bytes);
  }

  /** The last group's positions: padding for each byte it lacks. */
  lemma {:induction false} PositionsPadding(bytes: seq<byte>)
    requires |bytes| > 0
    ensures var xs := Positions(bytes);
      && |xs| >= 4
      && (|bytes| % 3 == 0 ==> xs[|xs| - 1].Bits? && xs[|xs| - 2].Bits?)
      && (|bytes| % 3 == 1 ==> xs[|xs| - 1].Pad? && xs[|xs| - 2].Pad? && xs[|xs| - 3].Bits?)
      && (|bytes| % 3 == 2 ==> xs[|xs| - 1].Pad? && xs[|xs| - 2].Bits?)
    decreases |bytes|
  {
    if |bytes| > 3 {
      PositionsPadding(bytes[3..]);
    }
  }

  /** The text ends in `=` once for each byte the last group lacks: none
      for a length divisible by three, two after one spare byte and one
      after two. */
  lemma Padding(bytes: seq<byte>)
    requires |bytes| > 0
    ensures var s := Encode(bytes);
      && (|bytes| % 3 == 0 ==> s[|s| - 1] != '=' && s[|s| - 2] != '=')
      && (|bytes| % 3 == 1 ==> s[|s| - 1] == '=' && s[|s| - 2] == '=' && s[|s| - 3] != '=')
      && (|bytes| % 3 == 2 ==> s[|s| - 1] == '=' && s[|s| - 2] != '=')
  {
    var xs := Positions(bytes);
    PositionsPadding(bytes);
    LetterValue(xs[|xs| - 1]);
    LetterValue(xs[|xs| - 2]);
    LetterValue(xs[|xs| - 3]);
  }

  /** The encoding loop of `ReadFileToBase64`: three bytes at a time, the
      bytes past the end read as zero, the 24-bit group cut into four
      6-bit indices by shifting and masking, and `=` written for each index
      that starts past the last byte. */
  method EncodeLoop(buffer: seq<byte>) returns (result: string)
    ensures result == Encode(buffer)
  {
    var n := |buffer|;
    result := "";
    var i := 0;
    while i < n
      invariant i < n ==> i % 3 == 0 && result == Encode(buffer[..i])
      invariant i >= n ==> result == Encode(buffer)
      decreases n - i
    {
      var quad := LoopQuad(buffer, i);
      EncodeStep(buffer, i);
      result := result + quad;
      i := i + 3;
    }
  }

  /** The four characters one pass of the loop writes for the group at
      `i`: they are that group's characters as section 4 of RFC 4648 cuts
      them. */
  method LoopQuad(buffer: seq<byte>, i: nat) returns (quad: string)
    requires i < |buffer|
    ensures quad == Quad(Group(buffer, i))
  {
    var n := |buffer|;
    var a: byte := buffer[i];
    var b: byte := if i + 1 < n then buffer[i + 1] else 0;
    var c: byte := if i + 2 < n then buffer[i + 2] else 0;
    var triple: int := (a as int) * 0x1_0000 + (b as int) * 0x100 + c;
    var xs := Sextets(Group(buffer, i));
    assert xs == [Bits(triple / 0x4_0000 % 64), Bits(triple / 0x1000 % 64),
                  if i + 1 < n then Bits(triple / 64 % 64) else Pad,
                  if i + 2 < n then Bits(triple % 64) else Pad] by {
      var g := Group(buffer, i);
      assert g[0] == a && (|g| > 1 ==> g[1] == b) && (|g| > 2 ==> g[2] == c);
      TripleDigits(a, b, c);
    }
    quad := [Digit(triple / 0x4_0000 % 64), Digit(triple / 0x1000 % 64),
             if i + 1 < n then Digit(triple / 64 % 64) else '=',
             if i + 2 < n then Digit(triple % 64) else '='];
    assert quad == Spell(xs);
  }

  /** The group of up to three bytes starting at `i`. */
  function Group(buffer: seq<byte>, i: nat): (g: seq<byte>)
    requires i < |buffer|
    ensures 0 < |g| <= 3
  {
    buffer[i..if i + 3 <= |buffer| then i + 3 else |buffer|]
  }

  /** Appending the group at `i` to the text of the groups before it. */
  lemma EncodeStep(buffer: seq<byte>, i: nat)
    requires i < |buffer| && i % 3 == 0
    ensures var j := if i + 3 <= |buffer| then i + 3 else |buffer|;
      Encode(buffer[..i]) + Quad(Group(buffer, i)) ==
        (if j == |buffer| then Encode(buffer) else Encode(buffer[..j]))
  {
    var j := if i + 3 <= |buffer| then i + 3 else |buffer|;
    var prefix, g := buffer[..i], Group(buffer, i);
    assert prefix + g == buffer[..j];
    PositionsAppend(prefix, g);
    SpellAppend(Positions(prefix), Sextets(g));
    if j == |buffer| {
      assert buffer[..j] == buffer;
    }
  }

  /** The positions of whole groups and then one more group. */
  lemma {:induction false} PositionsAppend(prefix: seq<byte>, group: seq<byte>)
    requires |prefix| % 3 == 0 && 0 < |group| <= 3
    ensures Positions(prefix + group) == Positions(prefix) + Sextets(group)
    decreases |prefix|
  {
    if |prefix| == 0 {
      assert prefix + group == group;
    } else {
      var rest := prefix[3..];
      assert (prefix + group)[..3] == prefix[..3];
      assert (prefix + group)[3..] == rest + group;
      PositionsAppend(rest, group);
      if |rest| == 0 {
        assert Positions(prefix) == Sextets(prefix[..3]) by {
          assert prefix[..3] == prefix;
        }
      }
    }
  }
}
