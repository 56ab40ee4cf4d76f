/** The stem codec: Python string operations the decoder relies on
    (`remove_char`, `startswith`, `endswith`, `in`), the URL-to-stub
    extraction of `get_stub` and the table-name construction of
    `convert_to_camel_case`. */
module StemCodec {

  /** `remove_char(s, n)`, that is `s[:n] + s[n + 1:]`: the character at
      index n is deleted; an index at or past the end deletes nothing. */
  function RemoveChar(s: string, n: nat): (r: string)
    ensures |r| == if n < |s| then |s| - 1 else |s|
    ensures forall i :: 0 <= i < |r| ==> r[i] == if i < n then s[i] else s[i + 1]
  {
    if n < |s| then s[..n] + s[n + 1..] else s
  }

  /** `s.startswith(c)` for a one-character prefix. */
  predicate StartsWith(s: string, c: char) {
    |s| > 0 && s[0] == c
  }

  /** `s.endswith(c)` for a one-character suffix. */
  predicate EndsWith(s: string, c: char) {
    |s| > 0 && s[|s| - 1] == c
  }

  /** sub occurs in s starting at index i. */
  predicate OccursAt(s: string, sub: string, i: int) {
    0 <= i <= |s| - |sub| && s[i..i + |sub|] == sub
  }

  /** `sub in s`: sub occurs in s as a contiguous substring. */
  predicate Contains(s: string, sub: string) {
    exists i :: 0 <= i <= |s| - |sub| && OccursAt(s, sub, i)
  }

  /** Index of the first c in s, or |s| when there is none. */
  function Find(s: string, c: char): (r: nat)
    ensures r <= |s|
    ensures forall j :: 0 <= j < r ==> s[j] != c
    ensures r < |s| ==> s[r] == c
  {
    if s == [] || s[0] == c then 0 else 1 + Find(s[1..], c)
  }

  /** `s.rfind(c)`: index of the last c in s, or -1 when there is none. */
  function RFind(s: string, c: char): (r: int)
    ensures -1 <= r < |s|
    ensures forall j :: r < j < |s| ==> s[j] != c
    ensures r >= 0 ==> s[r] == c
  {
    if s == [] then -1
    else if s[|s| - 1] == c then |s| - 1
    else RFind(s[..|s| - 1], c)
  }

  lemma FindAbsent(s: string, c: char)
    requires c !in s
    ensures Find(s, c) == |s|
  {
  }

  /** The last c is the one at index k when nothing after k is a c. */
  lemma RFindAt(s: string, c: char, k: nat)
    requires k < |s| && s[k] == c
    requires forall j :: k < j < |s| ==> s[j] != c
    ensures RFind(s, c) == k
  {
  }

  // ---------------------------------------------------------------------------
  // URL path: `urlparse(url).path`

  predicate IsAsciiLetter(c: char) {
    'a' <= c <= 'z' || 'A' <= c <= 'Z'
  }

  predicate IsSchemeChar(c: char) {
    IsAsciiLetter(c) || '0' <= c <= '9' || c == '+' || c == '-' || c == '.'
  }

  /** The URL without its `scheme:` prefix, recognised as `urlsplit` does: a
      non-empty run of scheme characters, starting with a letter, before the
      first ':'. */
  function DropScheme(u: string): string {
    var i := Find(u, ':');
    if 0 < i < |u| && IsAsciiLetter(u[0]) && forall j :: 0 <= j < i ==> IsSchemeChar(u[j])
    then u[i + 1..]
    else u
  }

  /** The text before the first c, or all of s when there is none. */
  function CutAtFirst(s: string, c: char): string {
    s[..Find(s, c)]
  }

  /** The URL without a leading `//authority` (up to the next '/'). */
  function DropAuthority(u: string): string {
    if |u| >= 2 && u[0] == '/' && u[1] == '/' then
      var authority := u[2..];
      authority[Find(authority, '/')..]
    else
      u
  }

  /** The path component of a URL: fragment ('#') and query ('?') cut off,
      scheme dropped, and a `//authority` part dropped. */
  function UrlPath(url: string): string {
    DropAuthority(DropScheme(CutAtFirst(CutAtFirst(url, '#'), '?')))
  }

  /** `p.split('/')[-1]`: the text after the last '/'. */
  function LastSegment(p: string): string {
    p[RFind(p, '/') + 1..]
  }

  /** The last segment holds no '/', is a suffix of the path, and is the
      whole path or follows a '/'. Stated as a lemma rather than as
      postconditions, which would be re-instantiated at every stub. */
  lemma LastSegmentSpec(p: string)
    ensures '/' !in LastSegment(p)
    ensures |LastSegment(p)| <= |p| && LastSegment(p) == p[|p| - |LastSegment(p)|..]
    ensures |LastSegment(p)| < |p| ==> p[|p| - |LastSegment(p)| - 1] == '/'
  {
  }

  /** `Path(name).stem` for a name without '/': the name without its last
      suffix, where a suffix starts at a '.' that is neither the first nor the
      last character; the name "." is the empty path, whose stem is empty. */
  function PathStem(name: string): string {
    if name == "." then ""
    else
      var i := RFind(name, '.');
      if 0 < i < |name| - 1 then name[..i] else name
  }

  /** The stem is a prefix of the name, and differs from it only when the
      name holds a '.'. */
  lemma PathStemSpec(name: string)
    ensures PathStem(name) <= name
    ensures PathStem(name) == name || '.' in name
  {
  }

  /** `get_stub(url)`: the stem of the last segment of the URL's path. */
  function GetStub(url: string): string {
    PathStem(LastSegment(UrlPath(url)))
  }

  /** A stub never holds a '/'. */
  lemma GetStubHasNoSlash(url: string)
    ensures '/' !in GetStub(url)
  {
    var segment := LastSegment(UrlPath(url));
    LastSegmentSpec(UrlPath(url));
    PathStemSpec(segment);
    var r := PathStem(segment);
    assert forall k :: 0 <= k < |r| ==> r[k] == segment[k];
  }

  /** A file name with one extension loses exactly that extension. */
  lemma PathStemOfSuffixedName(base: string, ext: string)
    requires base != [] && ext != [] && '.' !in ext
    ensures PathStem(base + "." + ext) == base
  {
    var name := base + "." + ext;
    forall j | |base| < j < |name|
      ensures name[j] != '.'
    {
      assert name[j] == ext[j - |base| - 1];
    }
    RFindAt(name, '.', |base|);
    assert name[..|base|] == base;
  }

  /** The last segment of `dir + "/" + name` is name. */
  lemma LastSegmentAfterSlash(dir: string, name: string)
    requires '/' !in name
    ensures LastSegment(dir + "/" + name) == name
  {
    var p := dir + "/" + name;
    forall j | |dir| < j < |p|
      ensures p[j] != '/'
    {
      assert p[j] == name[j - |dir| - 1];
    }
    RFindAt(p, '/', |dir|);
    assert p[|dir| + 1..] == name;
  }

  /** The path of `https://host/dir.../file` is `/dir.../file`. */
  lemma UrlPathOfHttpsUrl(host: string, path: string)
    requires '/' !in host && '?' !in host && '#' !in host
    requires '?' !in path && '#' !in path
    requires path == [] || path[0] == '/'
    ensures UrlPath("https://" + host + path) == path
  {
    var url := "https://" + host + path;
    CutAtAbsent(url, '#');
    CutAtAbsent(url, '?');
    assert url == "https:" + ("//" + host + path);
    DropHttpsScheme("//" + host + path);
    DropAuthorityOf(host, path);
  }

  /** Nothing is cut from a string without c. */
  lemma CutAtAbsent(s: string, c: char)
    requires c !in s
    ensures CutAtFirst(s, c) == s
  {
    FindAbsent(s, c);
    assert s[..|s|] == s;
  }

  /** `https:` is a scheme, and is dropped. */
  lemma DropHttpsScheme(rest: string)
    ensures DropScheme("https:" + rest) == rest
  {
    var u := "https:" + rest;
    assert u == "https" + [':'] + rest;
    FindAbsent("https", ':');
    FindBeforeSep("https", ':', rest);
    assert forall j :: 0 <= j < 5 ==> IsSchemeChar(u[j]);
    assert u[6..] == rest;
  }

  /** The authority (a host without '/') ends where the path begins. */
  lemma DropAuthorityOf(host: string, path: string)
    requires '/' !in host
    requires path == [] || path[0] == '/'
    ensures DropAuthority("//" + host + path) == path
  {
    assert ("//" + host + path)[2..] == host + path;
    if path == [] {
      assert host + path == host;
      FindAbsent(host, '/');
    } else {
      assert host + path == host + ['/'] + path[1..];
      FindAbsent(host, '/');
      FindBeforeSep(host, '/', path[1..]);
      assert (host + path)[|host|..] == path;
    }
  }

  /** The stub of `https://host/dir/base.ext` is base. */
  lemma StubOfHttpsUrl(host: string, dir: string, base: string, ext: string)
    requires '/' !in host && '?' !in host && '#' !in host
    requires '?' !in dir && '#' !in dir && (dir == [] || dir[0] == '/')
    requires base != [] && '/' !in base && '?' !in base && '#' !in base
    requires ext != [] && '/' !in ext && '?' !in ext && '#' !in ext && '.' !in ext
    ensures GetStub("https://" + host + dir + "/" + base + "." + ext) == base
  {
    var name := base + "." + ext;
    var path := dir + "/" + name;
    assert "https://" + host + dir + "/" + base + "." + ext == "https://" + host + path;
    assert '/' !in name by {
      forall k | 0 <= k < |name| ensures name[k] != '/' {
        if k < |base| { assert name[k] == base[k]; }
        else if k > |base| { assert name[k] == ext[k - |base| - 1]; }
      }
    }
    assert '?' !in path && '#' !in path by {
      forall k | 0 <= k < |path| ensures path[k] != '?' && path[k] != '#' {
        if k < |dir| { assert path[k] == dir[k]; }
        else if |dir| < k < |dir| + 1 + |base| { assert path[k] == base[k - |dir| - 1]; }
        else if k > |dir| + 1 + |base| { assert path[k] == ext[k - |dir| - |base| - 2]; }
      }
    }
    assert path[0] == '/';
    UrlPathOfHttpsUrl(host, path);
    LastSegmentAfterSlash(dir, name);
    PathStemOfSuffixedName(base, ext);
  }

  // ---------------------------------------------------------------------------
  // `convert_to_camel_case`

  /** `str.upper` of an ASCII character; other characters are unchanged. */
  function Upper(c: char): char {
    if 'a' <= c <= 'z' then (c as int - 32) as char else c
  }

  /** `str.lower` of an ASCII character; other characters are unchanged. */
  function Lower(c: char): char {
    if 'A' <= c <= 'Z' then (c as int + 32) as char else c
  }

  function LowerAll(s: string): (r: string)
    ensures |r| == |s|
    ensures forall i :: 0 <= i < |s| ==> r[i] == Lower(s[i])
  {
    if s == [] then [] else [Lower(s[0])] + LowerAll(s[1..])
  }

  /** `x.capitalize() or '_'`: an empty part becomes "_". */
  function CapitalizeOrUnderscore(x: string): (r: string)
    ensures r != []
  {
    if x == [] then "_" else [Upper(x[0])] + LowerAll(x[1..])
  }

  /** `s.split(sep)`: the pieces between separators, always at least one. */
  function Split(s: string, sep: char): (parts: seq<string>)
    ensures |parts| >= 1
    ensures forall k :: 0 <= k < |parts| ==> sep !in parts[k]
    decreases |s|
  {
    var i := Find(s, sep);
    if i == |s| then [s]
    else
      assert sep !in s[..i] by {
        forall k | 0 <= k < i ensures s[..i][k] != sep { }
      }
      [s[..i]] + Split(s[i + 1..], sep)
  }

  /** `sep.join(parts)`. */
  function JoinWith(parts: seq<string>, sep: char): string {
    if parts == [] then ""
    else if |parts| == 1 then parts[0]
    else parts[0] + [sep] + JoinWith(parts[1..], sep)
  }

  /** Joining the pieces with the separator gives back the string. */
  lemma {:induction false} SplitJoin(s: string, sep: char)
    ensures JoinWith(Split(s, sep), sep) == s
    decreases |s|
  {
    var i := Find(s, sep);
    if i < |s| {
      var rest := s[i + 1..];
      SplitJoin(rest, sep);
      JoinSplitStep(s, sep, i);
      CutAt(s, i);
    }
  }

  /** A string is its part before index i, its character at i, and its part
      after i. */
  lemma CutAt(s: string, i: nat)
    requires i < |s|
    ensures s == s[..i] + [s[i]] + s[i + 1..]
  {
  }

  /** The step of SplitJoin: the first piece, the separator, then the join of
      the pieces of the rest. */
  lemma JoinSplitStep(s: string, sep: char, i: nat)
    requires i == Find(s, sep) && i < |s|
    ensures JoinWith(Split(s, sep), sep) == s[..i] + [sep] + JoinWith(Split(s[i + 1..], sep), sep)
  {
    var parts, tail := Split(s, sep), Split(s[i + 1..], sep);
    assert parts == [s[..i]] + tail;
    assert parts[1..] == tail;
  }

  /** Splitting `a + sep + b` splits a and b apart. */
  lemma {:induction false} SplitAppend(a: string, sep: char, b: string)
    ensures Split(a + [sep] + b, sep) == Split(a, sep) + Split(b, sep)
    decreases |a|
  {
    var s := a + [sep] + b;
    var i := Find(a, sep);
    FindBeforeSep(a, sep, b);
    if i == |a| {
      assert s[..|a|] == a && s[|a| + 1..] == b;
    } else {
      assert s[..i] == a[..i];
      assert s[i + 1..] == a[i + 1..] + [sep] + b;
      SplitAppend(a[i + 1..], sep, b);
    }
  }

  /** The first separator of `a + sep + b` is the first one of a, or the
      one appended when a has none. */
  lemma FindBeforeSep(a: string, sep: char, b: string)
    ensures Find(a + [sep] + b, sep) == Find(a, sep)
  {
    var s := a + [sep] + b;
    var i := Find(a, sep);
    assert s[i] == sep;
    assert forall j :: 0 <= j < i ==> s[j] == a[j];
  }

  function CamelParts(parts: seq<string>): string {
    if parts == [] then "" else CapitalizeOrUnderscore(parts[0]) + CamelParts(parts[1..])
  }

  lemma {:induction false} CamelPartsAppend(p: seq<string>, q: seq<string>)
    ensures CamelParts(p + q) == CamelParts(p) + CamelParts(q)
  {
    if p == [] {
      assert p + q == q;
    } else {
      assert (p + q)[0] == p[0];
      assert (p + q)[1..] == p[1..] + q;
      CamelPartsAppend(p[1..], q);
    }
  }

  /** `convert_to_camel_case(s)`: each '_'-separated part capitalised (or "_"
      when empty), the parts concatenated. */
  function ConvertToCamelCase(s: string): string {
    CamelParts(Split(s, '_'))
  }

  /** When no part is empty, the result has no '_' left: a part maps to a
      capitalised copy of itself. */
  lemma {:induction false} CamelPartsHasNoUnderscore(parts: seq<string>)
    requires forall k :: 0 <= k < |parts| ==> parts[k] != [] && '_' !in parts[k]
    ensures '_' !in CamelParts(parts)
  {
    if parts != [] {
      var p := parts[0];
      var c := CapitalizeOrUnderscore(p);
      assert c[0] == Upper(p[0]);
      forall k | 1 <= k < |c| ensures c[k] == Lower(p[k]) {
        assert c[k] == LowerAll(p[1..])[k - 1];
      }
      assert p[0] in p;
      forall k | 0 <= k < |c| ensures c[k] != '_' {
        if k > 0 { assert p[k] in p; }
      }
      CamelPartsHasNoUnderscore(parts[1..]);
    }
  }

  /** Appending "_model" appends "Model" to the camel-case name. */
  lemma CamelCaseWithModel(name: string)
    ensures ConvertToCamelCase(name + "_model") == ConvertToCamelCase(name) + "Model"
  {
    assert name + "_model" == name + ['_'] + "model";
    SplitAppend(name, '_', "model");
    ModelPart();
    CamelPartsAppend(Split(name, '_'), ["model"]);
  }

  lemma ModelPart()
    ensures Split("model", '_') == ["model"]
    ensures CamelParts(["model"]) == "Model"
  {
    FindAbsent("model", '_');
    var low := LowerAll("odel");
    assert low == "odel" by {
      assert low[0] == 'o' && low[1] == 'd' && low[2] == 'e' && low[3] == 'l';
    }
    assert CapitalizeOrUnderscore("model") == "Model";
    assert ["model"][1..] == [];
  }
}
