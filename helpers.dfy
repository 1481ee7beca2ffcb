/** utils/helpers.py: the pure string and number helpers. `urlparse` is
    foreign code, so functions that take a URL take its parsed parts; a parse
    that raised is `None`. */
module Helpers {
  import opened Common
  import opened PyStr

  /** The fields of `urllib.parse.urlparse(url)` that the code reads. */
  datatype ParsedUrl = ParsedUrl(scheme: string, netloc: string, path: string)

  /** `is_valid_url`: a URL is valid when it parses with a scheme and a network location. */
  predicate IsValidUrl(parsed: Option<ParsedUrl>)
  {
    parsed.Some? && parsed.value.scheme != "" && parsed.value.netloc != ""
  }

  /** `is_same_domain`: two URLs share a domain when both parse to the same netloc. */
  predicate IsSameDomain(a: Option<ParsedUrl>, b: Option<ParsedUrl>)
  {
    a.Some? && b.Some? && a.value.netloc == b.value.netloc
  }

  /** On URLs that parse, `is_same_domain` is an equivalence relation. */
  lemma SameDomainIsEquivalence(a: ParsedUrl, b: ParsedUrl, c: ParsedUrl)
    ensures IsSameDomain(Some(a), Some(a))
    ensures IsSameDomain(Some(a), Some(b)) ==> IsSameDomain(Some(b), Some(a))
    ensures IsSameDomain(Some(a), Some(b)) && IsSameDomain(Some(b), Some(c)) ==> IsSameDomain(Some(a), Some(c))
    ensures IsSameDomain(Some(a), Some(b)) <==> a.netloc == b.netloc
  {
  }

  /** A URL that does not parse is not valid and shares a domain with nothing;
      a valid one has a host, so it shares its domain only with URLs that
      have the same non-empty host. */
  lemma ParseFailureIsRejected(u: Option<ParsedUrl>, v: Option<ParsedUrl>)
    ensures !IsValidUrl(None) && !IsSameDomain(None, u) && !IsSameDomain(u, None)
    ensures IsValidUrl(u) && IsSameDomain(u, v) ==> v.Some? && v.value.netloc == u.value.netloc != ""
  {
  }

  // ---------------------------------------------------------------------------
  // sanitize_filename

  /** The characters `re.sub(r'[<>:"/\\|?*]', '_', ...)` replaces. */
  predicate IsUnsafeChar(c: char)
  {
    c == '<' || c == '>' || c == ':' || c == '"' || c == '/' || c == '\\' || c == '|' || c == '?' || c == '*'
  }

  predicate NoUnsafeChar(s: string)
  {
    forall i :: 0 <= i < |s| ==> !IsUnsafeChar(s[i])
  }

  function ReplaceUnsafe(s: string): (r: string)
    ensures |r| == |s| && NoUnsafeChar(r)
    ensures forall i :: 0 <= i < |s| ==> r[i] == (if IsUnsafeChar(s[i]) then '_' else s[i])
  {
    seq(|s|, i requires 0 <= i < |s| => if IsUnsafeChar(s[i]) then '_' else s[i])
  }

  /** Some character of `p[lo..hi]` is not a '.'. */
  predicate HasNonDot(p: string, lo: int, hi: int)
    requires 0 <= lo <= hi <= |p|
  {
    exists k :: lo <= k < hi && p[k] != '.'
  }

  /** `posixpath.splitext(p)`: the extension starts at the last '.' after the
      last '/', provided some character before it in the last component is not
      a '.'; otherwise there is no extension. */
  function SplitExt(p: string): (r: (string, string))
    ensures r.0 + r.1 == p
    ensures r.1 == [] || (r.1[0] == '.' && forall k :: 1 <= k < |r.1| ==> r.1[k] != '.' && r.1[k] != '/')
  {
    var sepIndex := RFind(p, '/');
    var dotIndex := RFind(p, '.');
    if dotIndex > sepIndex && HasNonDot(p, sepIndex + 1, dotIndex) then
      assert p == p[..dotIndex] + p[dotIndex..];
      (p[..dotIndex], p[dotIndex..])
    else
      (p, [])
  }

  /** `sanitize_filename`: replace the unsafe characters by '_', strip
      whitespace, and cut a name longer than 100 characters down to the first
      95 characters of its stem followed by its extension. */
  function SanitizeFilename(name: string): (r: string)
    ensures NoUnsafeChar(r)
  {
    var cleaned := Strip(ReplaceUnsafe(name));
    assert NoUnsafeChar(cleaned) by {
      forall i | 0 <= i < |cleaned| ensures !IsUnsafeChar(cleaned[i]) {
        assert cleaned[i] in cleaned;
      }
    }
    if |cleaned| > 100 then
      var (stem, ext) := SplitExt(cleaned);
      assert forall i :: 0 <= i < |stem| ==> stem[i] == cleaned[i];
      assert forall i :: 0 <= i < |ext| ==> ext[i] == cleaned[|stem| + i];
      Take(stem, 95) + ext
    else
      cleaned
  }

  /** A name of at most 100 characters once cleaned comes back cleaned and
      stripped; a longer one keeps its extension and at most 95 characters of
      its stem. */
  lemma SanitizeFilenameLength(name: string)
    ensures var cleaned := Strip(ReplaceUnsafe(name));
            && (|cleaned| <= 100 ==> SanitizeFilename(name) == cleaned)
            && (|cleaned| > 100 ==>
                 var (stem, ext) := SplitExt(cleaned);
                 && EndsWith(SanitizeFilename(name), ext)
                 && StartsWith(stem, SanitizeFilename(name)[..|SanitizeFilename(name)| - |ext|])
                 && |SanitizeFilename(name)| == Min(95, |stem|) + |ext|)
  {
    var cleaned := Strip(ReplaceUnsafe(name));
    if |cleaned| > 100 {
      var (stem, ext) := SplitExt(cleaned);
      var r := SanitizeFilename(name);
      assert r == Take(stem, 95) + ext;
      assert r[|r| - |ext|..] == ext;
      assert r[..|r| - |ext|] == Take(stem, 95);
    }
  }

  /** ASCII whitespace-free names without unsafe characters are left alone. */
  lemma SanitizeFilenameKeepsCleanNames(name: string)
    requires NoUnsafeChar(name) && |name| <= 100
    requires |name| == 0 || (!IsSpace(name[0]) && !IsSpace(name[|name| - 1]))
    ensures SanitizeFilename(name) == name
  {
    assert ReplaceUnsafe(name) == name;
  }

  // ---------------------------------------------------------------------------
  // get_file_extension / is_supported_file

  /** `get_file_extension`: the lower-cased `splitext` extension. */
  function GetFileExtension(filename: string): string
  {
    Lower(SplitExt(filename).1)
  }

  const SupportedExtensions: set<string> := {
    ".html", ".htm", ".css", ".js", ".json",
    ".jpg", ".jpeg", ".png", ".gif", ".svg", ".webp", ".ico",
    ".woff", ".woff2", ".ttf", ".otf", ".eot",
    ".mp4", ".webm", ".ogg", ".mp3", ".wav"
  }

  predicate IsSupportedFile(url: string)
  {
    GetFileExtension(url) in SupportedExtensions
  }

  lemma {:induction false} RFindLower(s: string, c: char)
    requires LowerChar(c) == c && !('a' <= c <= 'z')
    ensures RFind(Lower(s), c) == RFind(s, c)
    decreases |s|
  {
    if |s| > 0 {
      assert Lower(s)[..|s| - 1] == Lower(s[..|s| - 1]);
      RFindLower(s[..|s| - 1], c);
    }
  }

  lemma HasNonDotLower(s: string, lo: int, hi: int)
    requires 0 <= lo <= hi <= |s|
    ensures HasNonDot(Lower(s), lo, hi) == HasNonDot(s, lo, hi)
  {
    var ls := Lower(s);
    if HasNonDot(s, lo, hi) {
      var k :| lo <= k < hi && s[k] != '.';
      assert ls[k] != '.';
    }
    if HasNonDot(ls, lo, hi) {
      var k :| lo <= k < hi && ls[k] != '.';
      assert s[k] != '.';
    }
  }

  /** Lower-casing commutes with `splitext`. */
  lemma SplitExtLower(s: string)
    ensures SplitExt(Lower(s)) == (Lower(SplitExt(s).0), Lower(SplitExt(s).1))
  {
    RFindLower(s, '/');
    RFindLower(s, '.');
    var ls := Lower(s);
    var sepIndex := RFind(s, '/');
    var dotIndex := RFind(s, '.');
    if dotIndex > sepIndex {
      HasNonDotLower(s, sepIndex + 1, dotIndex);
      if HasNonDot(s, sepIndex + 1, dotIndex) {
        assert Lower(s[..dotIndex]) == ls[..dotIndex];
        assert Lower(s[dotIndex..]) == ls[dotIndex..];
      }
    }
  }

  /** Whether a URL names a supported file does not depend on letter case. */
  lemma IsSupportedFileIgnoresCase(url: string)
    ensures IsSupportedFile(Lower(url)) == IsSupportedFile(url)
  {
    SplitExtLower(url);
    LowerIdempotent(SplitExt(url).1);
  }

  /** An extension lies wholly in the last path component. */
  lemma ExtensionHasNoSlash(url: string)
    ensures forall k :: 0 <= k < |GetFileExtension(url)| ==> GetFileExtension(url)[k] != '/'
  {
  }

  // ---------------------------------------------------------------------------
  // is_large_file

  const DefaultLargeFileThreshold: int := 10 * 1024 * 1024

  /** `is_large_file`: strictly more bytes than the threshold. */
  predicate IsLargeFile(sizeBytes: int, threshold: int := DefaultLargeFileThreshold)
  {
    sizeBytes > threshold
  }

  // ---------------------------------------------------------------------------
  // format_timedelta

  /** `divmod(total, 3600)` then `divmod(remainder, 60)` (Python floors, as
      Dafny's division by a positive divisor does). */
  function HoursMinutesSeconds(total: int): (r: (int, nat, nat))
    ensures r.0 * 3600 + r.1 * 60 + r.2 == total
    ensures r.1 < 60 && r.2 < 60
  {
    var rem := total % 3600;
    (total / 3600, rem / 60, rem % 60)
  }

  /** One printed unit, such as "12m". */
  function Unit(n: nat, u: char): string
  {
    NatToString(n) + [u]
  }

  /** The text `format_timedelta` prints for the given units. */
  function RenderUnits(h: int, m: nat, s: nat): string
  {
    if h > 0 then Unit(h, 'h') + " " + Unit(m, 'm') + " " + Unit(s, 's')
    else if m > 0 then Unit(m, 'm') + " " + Unit(s, 's')
    else Unit(s, 's')
  }

  /** `format_timedelta`, given `int(delta.total_seconds())`. */
  function FormatTimedelta(totalSeconds: int): string
  {
    var (h, m, s) := HoursMinutesSeconds(totalSeconds);
    RenderUnits(h, m, s)
  }

  /** First index of a space, or -1. */
  function FindSpace(s: string): (r: int)
    ensures -1 <= r < |s|
    ensures r >= 0 ==> s[r] == ' ' && forall k :: 0 <= k < r ==> s[k] != ' '
    ensures r < 0 ==> forall k :: 0 <= k < |s| ==> s[k] != ' '
  {
    if |s| == 0 then -1
    else if s[0] == ' ' then 0
    else var r := FindSpace(s[1..]); if r < 0 then -1 else r + 1
  }

  /** `s.split(' ')`. */
  function SplitSpace(s: string): seq<string>
    decreases |s|
  {
    var k := FindSpace(s);
    if k < 0 then [s] else [s[..k]] + SplitSpace(s[k + 1..])
  }

  lemma SplitSpaceCons(a: string, b: string)
    requires forall k :: 0 <= k < |a| ==> a[k] != ' '
    ensures SplitSpace(a + " " + b) == [a] + SplitSpace(b)
  {
    var s := a + " " + b;
    assert s[|a|] == ' ';
    forall k | 0 <= k < |a| ensures s[k] != ' ' { assert s[k] == a[k]; }
    assert FindSpace(s) == |a|;
    assert s[..|a|] == a && s[|a| + 1..] == b;
  }

  /** Reads one printed unit back into seconds. */
  function ReadUnit(t: string): Option<int>
  {
    if |t| >= 2 && AllDigits(t[..|t| - 1]) then
      var n := ParseDigits(t[..|t| - 1]);
      match t[|t| - 1]
      case 'h' => Some(n * 3600)
      case 'm' => Some(n * 60)
      case 's' => Some(n)
      case _ => None
    else None
  }

  function ReadUnits(ts: seq<string>): Option<int>
  {
    if |ts| == 0 then Some(0)
    else match (ReadUnit(ts[0]), ReadUnits(ts[1..]))
      case (Some(a), Some(b)) => Some(a + b)
      case _ => None
  }

  /** Reads a printed duration back into seconds. */
  function ReadDuration(text: string): Option<int>
  {
    ReadUnits(SplitSpace(text))
  }

  lemma ReadUnitOf(n: nat, u: char)
    requires u == 'h' || u == 'm' || u == 's'
    ensures ReadUnit(Unit(n, u)) == Some(n * (if u == 'h' then 3600 else if u == 'm' then 60 else 1))
    ensures forall k :: 0 <= k < |Unit(n, u)| ==> Unit(n, u)[k] != ' '
  {
    var t := Unit(n, u);
    assert t[..|t| - 1] == NatToString(n);
    ParseNatToString(n);
  }

  /** A lone printed unit is read back on its own. */
  lemma ReadsBackOne(s: nat)
    ensures ReadDuration(Unit(s, 's')) == Some(s)
  {
    ReadUnitOf(s, 's');
    var us := Unit(s, 's');
    assert FindSpace(us) == -1;
    assert SplitSpace(us) == [us];
    assert ReadUnits([us]) == Some(s);
  }

  /** Reading a unit in front of an already readable text adds its seconds. */
  lemma ReadsBackCons(n: nat, u: char, rest: string, secs: int)
    requires u == 'h' || u == 'm'
    requires ReadDuration(rest) == Some(secs)
    ensures ReadDuration(Unit(n, u) + " " + rest) == Some(n * (if u == 'h' then 3600 else 60) + secs)
  {
    ReadUnitOf(n, u);
    SplitSpaceCons(Unit(n, u), rest);
    var ts := [Unit(n, u)] + SplitSpace(rest);
    assert ts[1..] == SplitSpace(rest);
  }

  /** "Mm Ss" reads back as m * 60 + s. */
  lemma ReadsBackMinutes(m: nat, s: nat)
    ensures ReadDuration(Unit(m, 'm') + " " + Unit(s, 's')) == Some(m * 60 + s)
  {
    ReadsBackOne(s);
    ReadsBackCons(m, 'm', Unit(s, 's'), s);
  }

  /** "Hh Mm Ss" reads back as h * 3600 + m * 60 + s. */
  lemma ReadsBackHours(h: nat, m: nat, s: nat)
    ensures ReadDuration(Unit(h, 'h') + " " + Unit(m, 'm') + " " + Unit(s, 's'))
            == Some(h * 3600 + m * 60 + s)
  {
    var ms := Unit(m, 'm') + " " + Unit(s, 's');
    ReadsBackMinutes(m, s);
    ReadsBackCons(h, 'h', ms, m * 60 + s);
    assert Unit(h, 'h') + " " + Unit(m, 'm') + " " + Unit(s, 's') == Unit(h, 'h') + " " + ms;
  }

  lemma RenderUnitsReadsBack(h: nat, m: nat, s: nat)
    ensures ReadDuration(RenderUnits(h, m, s)) == Some(if h > 0 then h * 3600 + m * 60 + s else m * 60 + s)
  {
    if h > 0 {
      ReadsBackHours(h, m, s);
    } else if m > 0 {
      ReadsBackMinutes(m, s);
    } else {
      ReadsBackOne(s);
    }
  }

  /** The printed duration of a non-negative number of seconds reads back as
      that number: hours, minutes and seconds recompose exactly and the
      leading zero units are the only ones left out. */
  lemma FormatTimedeltaReadsBack(totalSeconds: int)
    requires totalSeconds >= 0
    ensures ReadDuration(FormatTimedelta(totalSeconds)) == Some(totalSeconds)
  {
    var r := HoursMinutesSeconds(totalSeconds);
    var h, m, s := r.0, r.1, r.2;
    assert h >= 0;
    assert FormatTimedelta(totalSeconds) == RenderUnits(h, m, s);
    RenderUnitsReadsBack(h, m, s);
    assert h <= 0 ==> h == 0;
  }

  /** Hence distinct non-negative durations print differently. */
  lemma FormatTimedeltaInjective(a: int, b: int)
    requires a >= 0 && b >= 0 && FormatTimedelta(a) == FormatTimedelta(b)
    ensures a == b
  {
    FormatTimedeltaReadsBack(a);
    FormatTimedeltaReadsBack(b);
  }
}
