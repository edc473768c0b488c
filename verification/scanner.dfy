/**
 * Reading playlist files: turning each line of an .m3u/.m3u8/.fplite file into
 * an absolute Windows track path, and picking playlist files out of a folder.
 * Paths are Windows path strings; the file text is given already decoded.
 */
module Scanner {
  import opened Wrappers
  import opened PyText

  /** PLAYLIST_EXTS */
  const PlaylistExts: set<string> := {".m3u", ".m3u8", ".fplite"}

  /** URI_PREFIXES, longest first: file:///  file://  file:\\  file:\ */
  const UriPrefixes: seq<string> := ["file:///", "file://", "file:\\\\", "file:\\"]

  /** The byte-order mark a UTF-8 playlist may begin with. */
  const Bom: char := '\U{feff}'

  /** The Windows path separator. */
  const Sep: char := '\\'

  /** A playlist found on disk: its path, its display name and its tracks. */
  datatype Playlist = Playlist(path: string, name: string, tracks: seq<string>)

  // ---------------------------------------------------------------- _strip_prefix

  /** The line starts with prefix k of UriPrefixes, ignoring case. */
  predicate HasPrefix(line: string, k: nat)
    requires k < |UriPrefixes|
  {
    StartsWith(Lower(line), UriPrefixes[k])
  }

  /** The search of _strip_prefix, from prefix k on. */
  function StripFrom(line: string, k: nat): (r: string)
    requires k <= |UriPrefixes|
    ensures |r| <= |line| && r == line[|line| - |r|..]
    ensures (forall j :: k <= j < |UriPrefixes| ==> !HasPrefix(line, j)) ==> r == line
    ensures forall j :: (k <= j < |UriPrefixes| && HasPrefix(line, j)
                         && (forall i :: k <= i < j ==> !HasPrefix(line, i))) ==> r == line[|UriPrefixes[j]|..]
    decreases |UriPrefixes| - k
  {
    if k == |UriPrefixes| then line
    else if HasPrefix(line, k) then line[|UriPrefixes[k]|..]
    else StripFrom(line, k + 1)
  }

  /**
   * _strip_prefix: removes the first URI prefix that starts the line, ignoring
   * case; the rest keeps the line's own case. Without a match the line is returned.
   */
  function StripPrefix(line: string): (r: string)
    ensures |r| <= |line| && r == line[|line| - |r|..]
    ensures (forall j :: 0 <= j < |UriPrefixes| ==> !HasPrefix(line, j)) ==> r == line
    ensures forall j :: (0 <= j < |UriPrefixes| && HasPrefix(line, j)
                         && (forall i :: 0 <= i < j ==> !HasPrefix(line, i))) ==> r == line[|UriPrefixes[j]|..]
  {
    StripFrom(line, 0)
  }

  /** Because the longest prefix is tried first, "file:///C:/a" loses all three slashes. */
  lemma StripPrefixLongestFirst()
    ensures StripPrefix("FILE:///C:/a") == "C:/a"
    ensures StripPrefix("file://server/a") == "server/a"
  {
    assert HasPrefix("FILE:///C:/a", 0);
    assert Lower("file://server/a")[7] == 's';
    assert !HasPrefix("file://server/a", 0);
    assert HasPrefix("file://server/a", 1);
  }

  // ---------------------------------------------------------------- unquote

  predicate IsHexDigit(c: char) {
    ('0' <= c <= '9') || ('a' <= c <= 'f') || ('A' <= c <= 'F')
  }

  function HexValue(c: char): (v: nat)
    requires IsHexDigit(c)
    ensures v < 16
  {
    if '0' <= c <= '9' then c as int - '0' as int
    else if 'a' <= c <= 'f' then c as int - 'a' as int + 10
    else c as int - 'A' as int + 10
  }

  /** A "%XY" escape starts at the beginning of s. */
  predicate EscapeAt(s: string) {
    |s| >= 3 && s[0] == '%' && IsHexDigit(s[1]) && IsHexDigit(s[2])
  }

  /**
   * urllib.parse.unquote at the octet level: each %XY with two hex digits
   * becomes the character with code XY; any other '%' stays as it is.
   */
  function Unquote(s: string): (r: string)
    ensures |r| <= |s|
    ensures '%' !in s ==> r == s
    decreases |s|
  {
    if s == [] then []
    else if EscapeAt(s) then [(HexValue(s[1]) * 16 + HexValue(s[2])) as char] + Unquote(s[3..])
    else [s[0]] + Unquote(s[1..])
  }

  /** The upper-case hex digit of a value below 16. */
  function HexDigit(v: nat): (c: char)
    requires v < 16
    ensures IsHexDigit(c) && HexValue(c) == v
  {
    if v < 10 then ('0' as int + v) as char else ('A' as int + v - 10) as char
  }

  /** Every character is one octet. */
  predicate Octets(s: string) {
    forall k :: 0 <= k < |s| ==> s[k] as int < 256
  }

  /** Percent-encodes every character of an octet string: c becomes %XY, XY its code in hex. */
  function Quote(s: string): (r: string)
    requires Octets(s)
    ensures |r| == 3 * |s|
  {
    if s == [] then []
    else ['%', HexDigit(s[0] as int / 16), HexDigit(s[0] as int % 16)] + Quote(s[1..])
  }

  /** Unquote undoes Quote: every octet comes back from its escape. */
  lemma {:induction false} UnquoteQuote(s: string)
    requires Octets(s)
    ensures Unquote(Quote(s)) == s
    decreases |s|
  {
    if s != [] {
      var q := Quote(s);
      var hi, lo := s[0] as int / 16, s[0] as int % 16;
      assert q == ['%', HexDigit(hi), HexDigit(lo)] + Quote(s[1..]);
      assert EscapeAt(q);
      assert q[3..] == Quote(s[1..]);
      assert (HexValue(q[1]) * 16 + HexValue(q[2])) as char == s[0];
      UnquoteQuote(s[1..]);
      assert s == [s[0]] + s[1..];
    }
  }

  /** "%20" decodes to a space. */
  lemma UnquoteSpace()
    ensures Unquote("a%20b") == "a b"
    ensures Unquote("100%") == "100%"
  {
    assert EscapeAt("%20b");
    assert !EscapeAt("%");
  }

  // ---------------------------------------------------------------- Windows paths

  /** rest.replace("/", "\\") */
  function ToBackslashes(s: string): (r: string)
    ensures |r| == |s| && '/' !in r
    ensures forall k :: 0 <= k < |s| ==> r[k] == (if s[k] == '/' then Sep else s[k])
  {
    seq(|s|, k requires 0 <= k < |s| => if s[k] == '/' then Sep else s[k])
  }

  /** The index of the first c in s at or after `from`, or -1. */
  function FindFrom(s: string, c: char, from: nat): (i: int)
    ensures i == -1 || (from <= i < |s| && s[i] == c)
    ensures forall j :: from <= j < (if i == -1 then |s| else i) ==> s[j] != c
    decreases |s| - from
  {
    if from >= |s| then -1 else if s[from] == c then from else FindFrom(s, c, from + 1)
  }

  /** A UNC drive as ntpath.splitdrive finds it: \\server\share (the share may be empty at the very end). */
  predicate IsUncDrive(p: string) {
    && |p| >= 3 && p[0] == Sep && p[1] == Sep && p[2] != Sep
    && var i := FindFrom(p, Sep, 2);
       i >= 0 && (i + 1 == |p| || p[i + 1] != Sep)
  }

  /** PureWindowsPath(p).drive is non-empty: "X:" at the start, or a UNC share. */
  predicate HasDrive(p: string) {
    (|p| >= 2 && p[1] == ':') || IsUncDrive(p)
  }

  /** PureWindowsPath(p).drive: "X:", the UNC share \\server\share, or nothing. */
  function Drive(p: string): (d: string)
    ensures d <= p
    ensures d != [] <==> HasDrive(p)
  {
    if |p| >= 2 && p[1] == ':' then p[..2]
    else if IsUncDrive(p) then
      var i := FindFrom(p, Sep, 2);
      var j := FindFrom(p, Sep, i + 1);
      p[..if j == -1 then |p| else j]
    else []
  }

  /**
   * base_dir / rel for a rel without a drive, as a Windows path joins: an empty rel
   * leaves base_dir as it is, a rooted rel (one starting with '\') keeps only
   * base_dir's drive, and any other rel goes under base_dir with one separator.
   */
  function JoinPath(base: string, rel: string): (r: string)
    ensures Drive(base) <= r
    ensures rel == [] || rel[0] != Sep ==> base <= r
    ensures rel == [] ==> r == base
    ensures |rel| <= |r| && r[|r| - |rel|..] == rel
    ensures forall c :: c in r ==> c in base || c in rel || c == Sep
    ensures rel != [] && rel[0] != Sep && base != [] && base[|base| - 1] != Sep ==>
      |r| == |base| + 1 + |rel| && r[|base|] == Sep
  {
    if rel == [] then base
    else if rel[0] == Sep then
      var d := Drive(base);
      assert forall c :: c in d ==> c in base by {
        forall c | c in d ensures c in base {
          var k :| 0 <= k < |d| && d[k] == c;
          assert base[k] == c;
        }
      }
      d + rel
    else if base == [] || base[|base| - 1] == Sep then base + rel
    else base + [Sep] + rel
  }

  /**
   * A plain name joined under a folder below its drive's root names a child of
   * it: its parent is the folder, its name the name.
   */
  lemma JoinUnderBase(base: string, rel: string)
    requires base != [] && base[|base| - 1] != Sep
    requires HasDrive(base) && |Drive(base)| < |base|
    requires rel != [] && Sep !in rel
    ensures Parent(JoinPath(base, rel)) == base && Name(JoinPath(base, rel)) == rel
  {
    JoinPlain(base, rel);
    var r := JoinPath(base, rel);
    DriveOfLonger(base, [Sep] + rel);
    ParentAfter(r, |base|);
    assert r[..|base|] == base && r[|base| + 1..] == rel;
  }

  lemma JoinPlain(base: string, rel: string)
    requires base != [] && base[|base| - 1] != Sep
    requires rel != [] && Sep !in rel
    ensures JoinPath(base, rel) == base + ([Sep] + rel)
    ensures RFind(JoinPath(base, rel), Sep) == |base|
  {
    var r := JoinPath(base, rel);
    assert r == base + ([Sep] + rel);
    assert r[|base|] == Sep && forall j :: |base| < j < |r| ==> r[j] == rel[j - |base| - 1];
  }

  /** A plain name joined under a drive's root folder: its parent is that root, its name the name. */
  lemma JoinUnderRoot(base: string, rel: string)
    requires HasDrive(base) && base == Drive(base) + [Sep]
    requires rel != [] && Sep !in rel
    ensures JoinPath(base, rel) == base + rel
    ensures Parent(JoinPath(base, rel)) == base && Name(JoinPath(base, rel)) == rel
  {
    var r := JoinPath(base, rel);
    assert r == base + rel;
    var i := RFind(r, Sep);
    assert i == |base| - 1;
    DriveOfLonger(base, rel);
    ParentAtRoot(r, i);
    assert r[..i + 1] == base && r[i + 1..] == rel;
  }

  /** Past the drive, the parent is the text before the last separator. */
  lemma ParentAfter(p: string, i: int)
    requires i == RFind(p, Sep) && |Drive(p)| < i
    ensures Parent(p) == p[..i]
  {
  }

  /** At the separator right after the drive, the parent is the drive's root. */
  lemma ParentAtRoot(p: string, i: int)
    requires 0 <= i == RFind(p, Sep) && i == |Drive(p)|
    ensures Parent(p) == p[..i + 1]
  {
  }

  /** Text after a path that goes on past its drive leaves the drive as it is. */
  lemma DriveOfLonger(p: string, t: string)
    requires HasDrive(p) && |Drive(p)| < |p|
    ensures Drive(p + t) == Drive(p)
  {
    if !(|p| >= 2 && p[1] == ':') {
      var q := p + t;
      var i := FindFrom(p, Sep, 2);
      FindFromPrefix(p, t, Sep, 2);
      assert i + 1 < |p|;
      assert q[i + 1] == p[i + 1];
      assert IsUncDrive(q);
      FindFromPrefix(p, t, Sep, i + 1);
    }
  }

  lemma {:induction false} FindFromPrefix(s: string, t: string, c: char, from: nat)
    requires FindFrom(s, c, from) != -1
    ensures FindFrom(s + t, c, from) == FindFrom(s, c, from)
    decreases |s| - from
  {
    if s[from] != c {
      FindFromPrefix(s, t, c, from + 1);
    }
  }

  /** A playlist at a drive's root has that root, not the bare drive, as its folder. */
  lemma ParentAtDriveRoot(p: string)
    requires p == "D:\\x.m3u"
    ensures Parent(p) == "D:\\"
  {
    assert Drive(p) == "D:";
    assert p[2] == Sep && forall j :: 2 < j < |p| ==> p[j] != Sep;
    assert RFind(p, Sep) == 2;
  }

  /** The index of the last occurrence of c in s, or -1. */
  function RFind(s: string, c: char): (i: int)
    ensures -1 <= i < |s|
    ensures i >= 0 ==> s[i] == c
    ensures forall j :: i < j < |s| ==> s[j] != c
  {
    if s == [] then -1
    else if s[|s| - 1] == c then |s| - 1
    else RFind(s[..|s| - 1], c)
  }

  /** The final component of a path (after the last separator). */
  function Name(p: string): (n: string)
    ensures |n| <= |p| && n == p[|p| - |n|..] && Sep !in n
  {
    p[RFind(p, Sep) + 1..]
  }

  /** The name is the whole path, or what follows its last separator. */
  lemma NameAfterSep(p: string)
    ensures Name(p) == p || (|Name(p)| < |p| && p[|p| - |Name(p)| - 1] == Sep)
  {
  }

  /**
   * Path.parent: the path before its last separator, except that the root
   * separator right after a drive stays; a path without separators has its
   * drive, or ".", as parent.
   */
  function Parent(p: string): string {
    var i := RFind(p, Sep);
    var d := Drive(p);
    if i < 0 then (if d != [] then d else ".")
    else if i <= |d| then d + [Sep]
    else p[..i]
  }

  /** Path.suffix: from the last '.' of the name, unless that dot starts or ends the name. */
  function Suffix(p: string): (r: string)
    ensures r == [] || r[0] == '.'
  {
    var n := Name(p);
    var i := RFind(n, '.');
    if 0 < i < |n| - 1 then n[i..] else ""
  }

  /**
   * The suffix is empty exactly when the name is empty, ends in '.', or has no
   * '.' after its first character; otherwise it is the end of the name from
   * its last '.', and not the whole name.
   */
  lemma SuffixSpec(p: string)
    ensures var n, r := Name(p), Suffix(p);
      && (r == [] <==> n == [] || n[|n| - 1] == '.' || '.' !in n[1..])
      && (r != [] ==> 2 <= |r| < |n| && r == n[|n| - |r|..] && '.' !in r[1..])
  {
    var n := Name(p);
    var i := RFind(n, '.');
    if 0 < i < |n| - 1 {
      SuffixFromDot(n, i);
    } else {
      NoInnerDot(n, i);
    }
  }

  lemma SuffixFromDot(n: string, i: int)
    requires i == RFind(n, '.') && 0 < i < |n| - 1
    ensures n != [] && n[|n| - 1] != '.' && '.' in n[1..]
    ensures '.' !in n[i..][1..]
  {
    assert n[1..][i - 1] == '.';
    assert forall j :: 0 <= j < |n[i..][1..]| ==> n[i..][1..][j] == n[i + 1 + j];
  }

  lemma NoInnerDot(n: string, i: int)
    requires i == RFind(n, '.') && !(0 < i < |n| - 1)
    ensures n == [] || n[|n| - 1] == '.' || '.' !in n[1..]
  {
    if i < |n| - 1 {
      assert forall j :: 0 <= j < |n[1..]| ==> n[1..][j] == n[j + 1];
    }
  }

  /** Path.stem: the name without its suffix. */
  function Stem(p: string): string {
    var n := Name(p);
    var i := RFind(n, '.');
    if 0 < i < |n| - 1 then n[..i] else n
  }

  /** Stem and suffix split the name. */
  lemma StemSuffixSplitName(p: string)
    ensures Stem(p) + Suffix(p) == Name(p)
    ensures Suffix(p) != [] ==> '.' !in Suffix(p)[1..]
  {
    var n := Name(p);
    var i := RFind(n, '.');
    if 0 < i < |n| - 1 {
      assert n[..i] + n[i..] == n;
      forall j | 0 <= j < |n[i..][1..]| ensures n[i..][1..][j] != '.' {
        assert n[i..][1..][j] == n[i + 1 + j];
      }
    }
  }

  // ---------------------------------------------------------------- _parse_line

  /** The line with leading BOMs and surrounding whitespace removed. */
  function Trimmed(line: string): string {
    Strip(LStripChar(line, Bom))
  }

  /** The path a non-comment line names, before it is made absolute. */
  function Decoded(raw: string): (r: string)
    ensures '/' !in r
  {
    ToBackslashes(Unquote(StripPrefix(raw)))
  }

  /**
   * _parse_line: None for a blank or comment line; otherwise the decoded path,
   * joined onto base_dir unless it has a drive.
   */
  function ParseLine(line: string, baseDir: string): (r: Option<string>)
  {
    var raw := Trimmed(line);
    if raw == [] || raw[0] == '#' then None
    else
      var rest := Decoded(raw);
      Some(if HasDrive(rest) then rest else JoinPath(baseDir, rest))
  }

  // ---------------------------------------------------------------- str.splitlines

  /** The line boundaries of str.splitlines. */
  predicate IsLineBreak(c: char) {
    c == '\n' || c == '\r' || c == '\U{0b}' || c == '\U{0c}' || ('\U{1c}' <= c <= '\U{1e}')
    || c == '\U{85}' || c == '\U{2028}' || c == '\U{2029}'
  }

  /** The index of the first line boundary in s, or |s|. */
  function FirstBreak(s: string): (i: nat)
    ensures i <= |s| && (i < |s| ==> IsLineBreak(s[i]))
    ensures forall j :: 0 <= j < i ==> !IsLineBreak(s[j])
  {
    if s == [] || IsLineBreak(s[0]) then 0 else 1 + FirstBreak(s[1..])
  }

  /** str.splitlines(): "\r\n" is one boundary and a final boundary adds no empty line. */
  function SplitLines(s: string): seq<string>
    decreases |s|
  {
    if s == [] then []
    else
      var i := FirstBreak(s);
      if i == |s| then [s]
      else
        var next := if s[i] == '\r' && i + 1 < |s| && s[i + 1] == '\n' then i + 2 else i + 1;
        [s[..i]] + SplitLines(s[next..])
  }

  /** "\n".join(lines) */
  function JoinLines(lines: seq<string>): string {
    if lines == [] then "" else if |lines| == 1 then lines[0] else lines[0] + "\n" + JoinLines(lines[1..])
  }

  /** Splitting undoes joining for non-empty lines without line boundaries. */
  lemma {:induction false} SplitJoin(lines: seq<string>)
    requires forall k :: 0 <= k < |lines| ==> lines[k] != [] && forall c :: c in lines[k] ==> !IsLineBreak(c)
    ensures SplitLines(JoinLines(lines)) == lines
  {
    if |lines| == 1 {
      assert FirstBreak(lines[0]) == |lines[0]|;
    } else if |lines| > 1 {
      var t := lines[0];
      assert JoinLines(lines) == t + "\n" + JoinLines(lines[1..]);
      SplitFirst(t, JoinLines(lines[1..]));
      SplitJoin(lines[1..]);
      assert lines == [t] + lines[1..];
    }
  }

  /** A line without boundaries followed by "\n" splits off as the first line. */
  lemma SplitFirst(t: string, rest: string)
    requires t != [] && forall c :: c in t ==> !IsLineBreak(c)
    ensures SplitLines(t + "\n" + rest) == [t] + SplitLines(rest)
  {
    var s := t + "\n" + rest;
    FirstBreakAfter(t, "\n" + rest);
    assert s[|t|] == '\n';
    assert s[..|t|] == t;
    assert s[|t| + 1..] == rest;
  }

  lemma {:induction false} FirstBreakAfter(t: string, u: string)
    requires forall c :: c in t ==> !IsLineBreak(c)
    requires u != [] && IsLineBreak(u[0])
    ensures FirstBreak(t + u) == |t|
  {
    if t != [] {
      assert (t + u)[1..] == t[1..] + u;
      FirstBreakAfter(t[1..], u);
    } else {
      assert t + u == u;
    }
  }

  // ---------------------------------------------------------------- _read_playlist

  /**
   * A line names no track exactly when, once trimmed, it is blank or a comment. A decoded
   * path with a drive is the track itself; any other stays on base_dir's drive, and lies
   * under base_dir unless it is rooted. No track gains a '/'.
   */
  lemma ParseLineSpec(line: string, baseDir: string)
    ensures ParseLine(line, baseDir) == None <==> Trimmed(line) == [] || Trimmed(line)[0] == '#'
    ensures ParseLine(line, baseDir) != None ==>
      var rest := Decoded(Trimmed(line));
      var t := ParseLine(line, baseDir).value;
      && (HasDrive(rest) ==> t == rest)
      && (!HasDrive(rest) ==> Drive(baseDir) <= t)
      && (!HasDrive(rest) && rest != [] && rest[0] == Sep ==> t == Drive(baseDir) + rest)
      && (!HasDrive(rest) && (rest == [] || rest[0] != Sep) ==> baseDir <= t)
      && (!HasDrive(rest) ==> |rest| <= |t| && t[|t| - |rest|..] == rest)
      && (!HasDrive(rest) && rest != [] && rest[0] != Sep && baseDir != [] && baseDir[|baseDir| - 1] != Sep ==>
            |t| == |baseDir| + 1 + |rest| && t[|baseDir|] == Sep)
    ensures ParseLine(line, baseDir) != None && '/' !in baseDir ==> '/' !in ParseLine(line, baseDir).value
  {
  }

  /** In a playlist under D:\pl, the rooted path \Music\a.mp3 lands on drive D: at the root. */
  lemma RootedLineJoins()
    ensures !HasDrive("\\Music\\a.mp3")
    ensures JoinPath("D:\\pl", "\\Music\\a.mp3") == "D:\\Music\\a.mp3"
  {
    var rest: string := "\\Music\\a.mp3";
    assert rest[1] != ':' && rest[1] != Sep;
    var base: string := "D:\\pl";
    assert Drive(base) == "D:";
    assert JoinPath(base, rest) == "D:" + rest;
  }

  /** The line "/Music/a.mp3" decodes to that rooted path. */
  lemma RootedLineDecodes()
    ensures Trimmed("/Music/a.mp3") == "/Music/a.mp3"
    ensures Decoded("/Music/a.mp3") == "\\Music\\a.mp3"
  {
    RootedLineTrims();
    RootedLineHasNoPrefix();
    RootedLineUnquotes("/Music/a.mp3");
    RootedLineBackslashes();
  }

  lemma RootedLineUnquotes(line: string)
    requires line == "/Music/a.mp3"
    ensures Unquote(line) == line
  {
    assert '%' !in line;
  }

  lemma RootedLineBackslashes()
    ensures ToBackslashes("/Music/a.mp3") == "\\Music\\a.mp3"
  {
    var line: string := "/Music/a.mp3";
    var r := ToBackslashes(line);
    assert |r| == 12;
    assert r[0] == '\\' && r[6] == '\\';
  }

  lemma RootedLineTrims()
    ensures Trimmed("/Music/a.mp3") == "/Music/a.mp3"
  {
    var line: string := "/Music/a.mp3";
    assert LStripChar(line, Bom) == line;
    StripNoSpace(line);
  }

  lemma RootedLineHasNoPrefix()
    ensures StripPrefix("/Music/a.mp3") == "/Music/a.mp3"
  {
    var line: string := "/Music/a.mp3";
    assert Lower(line)[0] == '/';
    forall j | 0 <= j < |UriPrefixes| ensures !HasPrefix(line, j) {
      assert UriPrefixes[j][0] == 'f';
    }
  }

  /** The values f gives, in order, skipping the elements it gives None for. */
  function Collect<T, U>(xs: seq<T>, f: T -> Option<U>): (r: seq<U>)
    ensures |r| <= |xs|
  {
    if xs == [] then []
    else
      var init := Collect(xs[..|xs| - 1], f);
      match f(xs[|xs| - 1])
      case None => init
      case Some(y) => init + [y]
  }

  /** Each value collected comes from some element, and each element's value is collected. */
  lemma {:induction false} CollectMembers<T, U>(xs: seq<T>, f: T -> Option<U>)
    ensures forall x :: x in xs && f(x).Some? ==> f(x).value in Collect(xs, f)
    ensures forall y :: y in Collect(xs, f) ==> exists x :: x in xs && f(x) == Some(y)
  {
    if xs != [] {
      var init, last := xs[..|xs| - 1], xs[|xs| - 1];
      CollectMembers(init, f);
      assert xs == init + [last];
      forall x | x in xs && f(x).Some?
        ensures f(x).value in Collect(xs, f)
      {
        if x in init {
          assert f(x).value in Collect(init, f);
        }
      }
      forall y | y in Collect(xs, f)
        ensures exists x :: x in xs && f(x) == Some(y)
      {
        if y in Collect(init, f) {
          var x :| x in init && f(x) == Some(y);
          assert x in xs;
        } else {
          assert f(last) == Some(y);
        }
      }
    }
  }

  /** Collecting one element more appends its value, if f gives it one. */
  lemma CollectSnoc<T, U>(xs: seq<T>, x: T, f: T -> Option<U>)
    ensures Collect(xs + [x], f) == Collect(xs, f) + (if f(x).Some? then [f(x).value] else [])
  {
    assert (xs + [x])[..|xs + [x]| - 1] == xs;
  }

  /** The step of a loop that collects xs from the front. */
  lemma CollectStep<T, U>(xs: seq<T>, i: nat, f: T -> Option<U>, y: Option<U>)
    requires i < |xs| && y == f(xs[i])
    ensures Collect(xs[..i + 1], f) == Collect(xs[..i], f) + (if y.Some? then [y.value] else [])
  {
    assert xs[..i + 1] == xs[..i] + [xs[i]];
    CollectSnoc(xs[..i], xs[i], f);
  }

  /** When f gives every element back unchanged, nothing is dropped or altered. */
  lemma {:induction false} CollectAll<T, U>(xs: seq<T>, f: T -> Option<U>, ys: seq<U>)
    requires |ys| == |xs| && forall k :: 0 <= k < |xs| ==> f(xs[k]) == Some(ys[k])
    ensures Collect(xs, f) == ys
  {
    if xs != [] {
      CollectAll(xs[..|xs| - 1], f, ys[..|ys| - 1]);
      assert ys == ys[..|ys| - 1] + [ys[|ys| - 1]];
    }
  }

  /** The tracks of a list of lines: ParseLine of every line that names one, in order. */
  function ParseAll(lines: seq<string>, baseDir: string): (r: seq<string>)
    ensures |r| <= |lines|
  {
    Collect(lines, line => ParseLine(line, baseDir))
  }

  /** _read_playlist over the file's decoded text: one track per non-blank, non-comment line, in file order. */
  method ReadPlaylist(text: string, baseDir: string) returns (tracks: seq<string>)
    ensures tracks == ParseAll(SplitLines(text), baseDir)
  {
    var lines := SplitLines(text);
    tracks := [];
    var i := 0;
    while i < |lines|
      invariant 0 <= i <= |lines|
      invariant tracks == ParseAll(lines[..i], baseDir)
    {
      assert lines[..i + 1][..i] == lines[..i];
      var p := ParseLine(lines[i], baseDir);
      if p.Some? {
        tracks := tracks + [p.value];
      }
      i := i + 1;
    }
    assert lines[..i] == lines;
  }

  /** A track as _create_playlist writes it: a drive path on one line, '/' or '\\' separated. */
  predicate PlainTrack(t: string) {
    && |t| >= 2 && t[1] == ':'
    && !IsSpace(t[0]) && t[0] != Bom && t[0] != '#' && !IsSpace(t[|t| - 1])
    && forall c :: c in t ==> c != '%' && !IsLineBreak(c)
  }

  /** A plain track line parses to itself with '/' turned into '\\', whatever the base directory. */
  lemma ParsePlainTrack(t: string, baseDir: string)
    requires PlainTrack(t)
    ensures ParseLine(t, baseDir) == Some(ToBackslashes(t))
    ensures '/' !in t ==> ParseLine(t, baseDir) == Some(t)
  {
    PlainTrimmed(t);
    assert '%' !in t;
    PlainDecoded(t);
    ParseDriveLine(t, baseDir);
    Unslashed(t);
  }

  lemma Unslashed(t: string)
    ensures '/' !in t ==> ToBackslashes(t) == t
  {
  }

  /** A line whose decoded path has a drive parses to that path. */
  lemma ParseDriveLine(line: string, baseDir: string)
    requires Trimmed(line) != [] && Trimmed(line)[0] != '#' && HasDrive(Decoded(Trimmed(line)))
    ensures ParseLine(line, baseDir) == Some(Decoded(Trimmed(line)))
  {
  }

  lemma PlainDecoded(t: string)
    requires |t| >= 2 && t[1] == ':' && '%' !in t
    ensures Decoded(t) == ToBackslashes(t) && HasDrive(ToBackslashes(t))
  {
    PlainNoPrefix(t);
    assert ToBackslashes(t)[1] == ':';
  }

  lemma PlainTrimmed(t: string)
    requires PlainTrack(t)
    ensures Trimmed(t) == t
  {
    assert LStripChar(t, Bom) == t;
    StripNoSpace(t);
  }

  lemma PlainNoPrefix(t: string)
    requires |t| >= 2 && t[1] == ':'
    ensures StripPrefix(t) == t
  {
    var low := Lower(t);
    assert low[1] == ':';
    forall j | 0 <= j < |UriPrefixes| ensures !HasPrefix(t, j) {
      assert UriPrefixes[j][1] == 'i';
      assert |UriPrefixes[j]| > 1;
    }
  }

  /** Each track with its '/' separators turned into '\\'. */
  function Backslashed(ts: seq<string>): (r: seq<string>)
    ensures |r| == |ts| && forall k :: 0 <= k < |ts| ==> r[k] == ToBackslashes(ts[k])
  {
    seq(|ts|, k requires 0 <= k < |ts| => ToBackslashes(ts[k]))
  }

  lemma ParseAllPlain(ts: seq<string>, baseDir: string)
    requires forall k :: 0 <= k < |ts| ==> PlainTrack(ts[k])
    ensures ParseAll(ts, baseDir) == Backslashed(ts)
    ensures (forall k :: 0 <= k < |ts| ==> '/' !in ts[k]) ==> ParseAll(ts, baseDir) == ts
  {
    var f := line => ParseLine(line, baseDir);
    var b := Backslashed(ts);
    forall k | 0 <= k < |ts|
      ensures f(ts[k]) == Some(b[k])
    {
      ParsePlainTrack(ts[k], baseDir);
    }
    CollectAll(ts, f, b);
    BackslashedUnslashed(ts);
  }

  lemma BackslashedUnslashed(ts: seq<string>)
    ensures (forall k :: 0 <= k < |ts| ==> '/' !in ts[k]) ==> Backslashed(ts) == ts
  {
    if forall k :: 0 <= k < |ts| ==> '/' !in ts[k] {
      forall k | 0 <= k < |ts| ensures Backslashed(ts)[k] == ts[k] {
        assert ToBackslashes(ts[k]) == ts[k];
      }
    }
  }

  /**
   * Tracks written one per line by _create_playlist read back in order, each with
   * '/' turned into '\\'; tracks written with '\\' read back as the same list.
   */
  lemma CreatedPlaylistReadsBack(ts: seq<string>, baseDir: string)
    requires forall k :: 0 <= k < |ts| ==> PlainTrack(ts[k])
    ensures ParseAll(SplitLines(JoinLines(ts)), baseDir) == Backslashed(ts)
    ensures (forall k :: 0 <= k < |ts| ==> '/' !in ts[k]) ==> ParseAll(SplitLines(JoinLines(ts)), baseDir) == ts
  {
    SplitJoin(ts);
    ParseAllPlain(ts, baseDir);
  }

  /** "C:/Music/a.mp3" written by _create_playlist reads back as C:\\Music\\a.mp3. */
  lemma SlashTrackReadsBack(t: string, baseDir: string)
    requires t == "C:/Music/a.mp3"
    ensures ParseAll(SplitLines(JoinLines([t])), baseDir) == ["C:\\Music\\a.mp3"]
  {
    SlashTrackIsPlain(t);
    CreatedPlaylistReadsBack([t], baseDir);
    SlashTrackBackslashes(t);
    assert Backslashed([t]) == [ToBackslashes(t)];
  }

  lemma SlashTrackIsPlain(t: string)
    requires t == "C:/Music/a.mp3"
    ensures PlainTrack(t)
  {
    assert !IsSpace(t[0]) && !IsSpace(t[|t| - 1]);
    forall c | c in t ensures c != '%' && !IsLineBreak(c) {
    }
  }

  lemma SlashTrackBackslashes(t: string)
    requires t == "C:/Music/a.mp3"
    ensures ToBackslashes(t) == "C:\\Music\\a.mp3"
  {
  }

  // ---------------------------------------------------------------- scan_playlists

  /** One path the folder walk yields: whether it is a file, and its text if it is read. */
  datatype Entry = Entry(path: string, isFile: bool, text: string)

  /** The suffix filter of scan_playlists. */
  predicate IsPlaylistFile(e: Entry) {
    Lower(Suffix(e.path)) in PlaylistExts && e.isFile
  }

  /** The playlist scan_playlists builds for a selected entry. */
  function PlaylistOf(e: Entry): Playlist {
    Playlist(e.path, Stem(e.path), ParseAll(SplitLines(e.text), Parent(e.path)))
  }

  /** The playlist of an entry, if scan_playlists keeps it. */
  function Scanned(e: Entry): Option<Playlist> {
    if IsPlaylistFile(e) then Some(PlaylistOf(e)) else None
  }

  /** The playlists of a walk, in walk order. */
  function ScanAll(entries: seq<Entry>): (r: seq<Playlist>)
    ensures |r| <= |entries|
  {
    Collect(entries, Scanned)
  }

  /** A playlist with a playlist suffix (in any case), named by its file's stem. */
  predicate WellNamed(p: Playlist) {
    Lower(Suffix(p.path)) in PlaylistExts && p.name == Stem(p.path)
  }

  /** Every playlist found has a playlist suffix (in any case) and is named by its file's stem. */
  lemma ScanAllFiltered(entries: seq<Entry>)
    ensures forall p :: p in ScanAll(entries) ==> WellNamed(p)
  {
    CollectMembers(entries, Scanned);
  }

  /** A walk entry yields a playlist exactly when it is a file with a playlist suffix. */
  lemma ScanAllSelects(entries: seq<Entry>)
    ensures forall e :: e in entries && IsPlaylistFile(e) ==> PlaylistOf(e) in ScanAll(entries)
    ensures forall p :: p in ScanAll(entries) ==> exists e :: e in entries && IsPlaylistFile(e) && p == PlaylistOf(e)
  {
    CollectMembers(entries, Scanned);
    forall e | e in entries && IsPlaylistFile(e)
      ensures PlaylistOf(e) in ScanAll(entries)
    {
      assert Scanned(e).Some?;
    }
    forall p | p in ScanAll(entries)
      ensures exists e :: e in entries && IsPlaylistFile(e) && p == PlaylistOf(e)
    {
      var e :| e in entries && Scanned(e) == Some(p);
      assert IsPlaylistFile(e);
    }
  }

  /** The body of the walk loop of scan_playlists, for one entry. */
  method ScanOne(e: Entry) returns (found: Option<Playlist>)
    ensures found == Scanned(e)
  {
    found := None;
    if IsPlaylistFile(e) {
      var tracks := ReadPlaylist(e.text, Parent(e.path));
      found := Some(Playlist(e.path, Stem(e.path), tracks));
    }
  }

  /** scan_playlists: [] for a missing root, otherwise one playlist per playlist file of the walk, in walk order. */
  method ScanPlaylists(rootExists: bool, entries: seq<Entry>) returns (out: seq<Playlist>)
    ensures !rootExists ==> out == []
    ensures rootExists ==> out == ScanAll(entries)
  {
    out := [];
    if !rootExists {
      return;
    }
    var i := 0;
    while i < |entries|
      invariant 0 <= i <= |entries|
      invariant out == ScanAll(entries[..i])
    {
      var found := ScanOne(entries[i]);
      CollectStep(entries, i, Scanned, found);
      if found.Some? {
        out := out + [found.value];
      }
      i := i + 1;
    }
    assert entries[..i] == entries;
  }
}
