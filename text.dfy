/** The few Python string and posixpath operations the printer relies on,
    over ASCII text: lower(), strip(), isdigit(), find/rfind, endswith,
    os.path.splitext, os.path.join, os.path.dirname and str(n). */
module Text {

  /** str.lower() on one character (ASCII letters only). */
  function LowerChar(c: char): char {
    if 'A' <= c <= 'Z' then (c as int + 32) as char else c
  }

  function Lower(s: string): (r: string)
    ensures |r| == |s|
    ensures forall i :: 0 <= i < |s| ==> r[i] == LowerChar(s[i])
  {
    if s == [] then [] else [LowerChar(s[0])] + Lower(s[1..])
  }

  /** The ASCII characters str.isspace() accepts: 9-13 and 28-32. */
  predicate IsSpace(c: char) {
    (9 <= c as int <= 13) || (28 <= c as int <= 32)
  }

  /** How many whitespace characters s starts with. */
  function LeadingSpaces(s: string): (n: nat)
    ensures n <= |s|
    ensures forall k :: 0 <= k < n ==> IsSpace(s[k])
    ensures n < |s| ==> !IsSpace(s[n])
  {
    if s != [] && IsSpace(s[0]) then LeadingSpaces(s[1..]) + 1 else 0
  }

  /** Where the trailing whitespace of s begins. */
  function TrailingStart(s: string): (n: nat)
    ensures n <= |s|
    ensures forall k :: n <= k < |s| ==> IsSpace(s[k])
    ensures n > 0 ==> !IsSpace(s[n - 1])
  {
    if s != [] && IsSpace(s[|s| - 1]) then TrailingStart(s[..|s| - 1]) else |s|
  }

  /** Neither starts nor ends with whitespace. */
  predicate Trimmed(s: string) {
    s == [] || (!IsSpace(s[0]) && !IsSpace(s[|s| - 1]))
  }

  /** str.strip() with no argument: s with the whitespace at both ends cut
      off, and nothing else. */
  function Strip(s: string): (r: string)
    ensures Trimmed(r)
    ensures exists a, b ::
              && 0 <= a <= b <= |s| && r == s[a..b]
              && (forall k :: 0 <= k < a ==> IsSpace(s[k]))
              && (forall k :: b <= k < |s| ==> IsSpace(s[k]))
  {
    var a := LeadingSpaces(s);
    var t := s[a..];
    var b := a + TrailingStart(t);
    assert t[..TrailingStart(t)] == s[a..b];
    assert forall k :: b <= k < |s| ==> s[k] == t[k - a];
    t[..TrailingStart(t)]
  }

  /** Stripping text that is already trimmed changes nothing; in particular
      stripping twice is stripping once. */
  lemma StripTrimmed(s: string)
    requires Trimmed(s)
    ensures Strip(s) == s
  {
    assert LeadingSpaces(s) == 0;
    assert s[0..] == s;
    assert TrailingStart(s) == |s|;
  }

  /** Stripping adds no character. */
  lemma StripAddsNothing(s: string, c: char)
    requires c !in s
    ensures c !in Strip(s)
  {
    var t := s[LeadingSpaces(s)..];
    assert forall k :: 0 <= k < |t| ==> t[k] == s[LeadingSpaces(s) + k];
  }

  predicate StartsWith(s: string, prefix: string) {
    |prefix| <= |s| && s[..|prefix|] == prefix
  }

  predicate EndsWith(s: string, suffix: string) {
    |suffix| <= |s| && s[|s| - |suffix|..] == suffix
  }

  /** str.find(c), except that "absent" is |s| rather than -1. */
  function FirstIndex(s: string, c: char): (i: nat)
    ensures i <= |s|
    ensures i < |s| ==> s[i] == c
    ensures forall k :: 0 <= k < i ==> s[k] != c
  {
    if s == [] then 0
    else if s[0] == c then 0
    else FirstIndex(s[1..], c) + 1
  }

  /** str.rfind(c): the last index of c, or -1. */
  function LastIndex(s: string, c: char): (i: int)
    ensures -1 <= i < |s|
    ensures i >= 0 ==> s[i] == c
    ensures forall k :: i < k < |s| ==> s[k] != c
  {
    if s == [] then -1
    else if s[|s| - 1] == c then |s| - 1
    else LastIndex(s[..|s| - 1], c)
  }

  /** str.split(c, 1) on a string that holds c: the text before its first
      occurrence and the text after it. */
  function SplitFirst(s: string, c: char): (parts: (string, string))
    requires c in s
    ensures parts.0 + [c] + parts.1 == s
    ensures c !in parts.0
  {
    var i := FirstIndex(s, c);
    assert s == s[..i] + [c] + s[i + 1..];
    (s[..i], s[i + 1..])
  }

  /** str.replace(c, "", 1): drop the first occurrence of c, if any. */
  function RemoveFirst(s: string, c: char): (r: string)
    ensures c !in s ==> r == s
    ensures c in s ==> |r| == |s| - 1
  {
    var i := FirstIndex(s, c);
    if i == |s| then s else s[..i] + s[i + 1..]
  }

  /** What RemoveFirst removes: the first c and nothing else. */
  lemma RemoveFirstDropsFirst(s: string, c: char)
    requires c in s
    ensures exists i ::
              && 0 <= i < |s| && s[i] == c && c !in s[..i]
              && RemoveFirst(s, c) == s[..i] + s[i + 1..]
  {
    var i := FirstIndex(s, c);
    assert s[i] == c && c !in s[..i];
  }

  /** Removing one c leaves every other character where it was. */
  lemma RemoveFirstKeepsOthers(s: string, c: char, d: char)
    requires d != c
    ensures d in RemoveFirst(s, c) <==> d in s
  {
    var i := FirstIndex(s, c);
    if i < |s| {
      assert s == s[..i] + [s[i]] + s[i + 1..];
    }
  }

  /** RemoveFirst skips a leading character other than c ... */
  lemma RemoveFirstPastOther(s: string, c: char, d: char)
    requires d != c
    ensures RemoveFirst([d] + s, c) == [d] + RemoveFirst(s, c)
  {
    assert ([d] + s)[1..] == s;
    var i := FirstIndex(s, c);
    assert FirstIndex([d] + s, c) == i + 1;
    if i < |s| {
      assert ([d] + s)[..i + 1] == [d] + s[..i];
    }
  }

  /** ... and drops a leading c. */
  lemma RemoveFirstAtHead(s: string, c: char)
    ensures RemoveFirst([c] + s, c) == s
  {
    var v := [c] + s;
    assert v[0] == c;
    assert FirstIndex(v, c) == 0;
    assert v[..0] + v[1..] == s;
  }

  predicate IsDigit(c: char) {
    '0' <= c <= '9'
  }

  predicate AllDigits(s: string) {
    forall i :: 0 <= i < |s| ==> IsDigit(s[i])
  }

  /** str.isdigit() (ASCII digits): non-empty and nothing but digits. */
  predicate IsDigitString(s: string) {
    |s| > 0 && AllDigits(s)
  }

  function DigitValue(c: char): nat
    requires IsDigit(c)
  {
    c as int - '0' as int
  }

  function DigitChar(d: nat): (c: char)
    requires d < 10
    ensures IsDigit(c) && DigitValue(c) == d
  {
    ('0' as int + d) as char
  }

  /** The number a string of decimal digits denotes. */
  function DigitsValue(s: string): nat
    requires AllDigits(s)
  {
    if s == [] then 0 else DigitsValue(s[..|s| - 1]) * 10 + DigitValue(s[|s| - 1])
  }

  /** str(n) for a natural number: its shortest decimal rendering, which
      reads back as n. */
  function NatToString(n: nat): (s: string)
    ensures IsDigitString(s) && DigitsValue(s) == n
    ensures |s| == 1 <==> n < 10
    ensures |s| > 1 ==> s[0] != '0'
  {
    if n < 10 then [DigitChar(n)]
    else
      var s := NatToString(n / 10) + [DigitChar(n % 10)];
      assert s[..|s| - 1] == NatToString(n / 10);
      assert s[0] == NatToString(n / 10)[0];
      assert n / 10 < 10 ==> DigitValue(s[0]) == n / 10;
      s
  }

  /** Distinct numbers render to distinct strings. */
  lemma NatToStringInjective(a: nat, b: nat)
    requires NatToString(a) == NatToString(b)
    ensures a == b
  {
    assert DigitsValue(NatToString(a)) == a;
  }

  predicate AllDots(s: string) {
    forall i :: 0 <= i < |s| ==> s[i] == '.'
  }

  /** Where posixpath.splitext cuts: the last '.' of the last path
      component, unless every character before that dot in the component is
      a dot too (a leading-dot name has no extension); -1 for no cut. */
  function ExtIndex(p: string): (d: int)
    ensures -1 <= d < |p|
    ensures d >= 0 ==> p[d] == '.' && forall k :: d < k < |p| ==> p[k] != '/' && p[k] != '.'
  {
    var slash := LastIndex(p, '/');
    var dot := LastIndex(p, '.');
    if dot > slash && !AllDots(p[slash + 1..dot]) then dot else -1
  }

  /** posixpath.splitext: (root, ext) with root + ext == p. */
  function SplitExt(p: string): (parts: (string, string))
    ensures parts.0 + parts.1 == p
    ensures parts.1 == [] || parts.1[0] == '.'
    ensures forall k :: 0 <= k < |parts.1| ==> parts.1[k] != '/'
    ensures forall k :: 1 <= k < |parts.1| ==> parts.1[k] != '.'
  {
    var d := ExtIndex(p);
    if d >= 0 then (p[..d], p[d..]) else (p, [])
  }

  /** posixpath.join of two components: an absolute b replaces a; otherwise
      b is appended to a, with one '/' between them unless a is empty or
      already ends in '/'. */
  function Join(a: string, b: string): (r: string)
    ensures EndsWith(r, b)
    ensures StartsWith(b, "/") ==> r == b
    ensures !StartsWith(b, "/") ==> r == a + b || r == a + "/" + b
    ensures !StartsWith(b, "/") && (a == [] || EndsWith(a, "/")) ==> r == a + b
  {
    if StartsWith(b, "/") then b
    else if a == [] || EndsWith(a, "/") then a + b
    else a + "/" + b
  }

  /** A relative b joined to a directory a without a trailing '/' is
      a/b. */
  lemma JoinRelative(a: string, b: string)
    requires a != [] && a[|a| - 1] != '/'
    requires b == [] || b[0] != '/'
    ensures Join(a, b) == a + "/" + b
  {
    assert !StartsWith(b, "/") by {
      assert b != [] ==> b[..1] != "/";
    }
    assert !EndsWith(a, "/") by {
      assert a[|a| - 1..] != "/";
    }
  }

  predicate AllSlashes(s: string) {
    forall i :: 0 <= i < |s| ==> s[i] == '/'
  }

  /** str.rstrip('/'). */
  function StripTrailingSlashes(s: string): (r: string)
    ensures |r| <= |s| && r == s[..|r|]
    ensures r == [] || r[|r| - 1] != '/'
    ensures AllSlashes(s[|r|..])
  {
    if s != [] && s[|s| - 1] == '/' then
      var r := StripTrailingSlashes(s[..|s| - 1]);
      assert s[|r|..] == s[..|s| - 1][|r|..] + ['/'];
      r
    else s
  }

  /** posixpath.dirname: everything up to the last '/', without trailing
      slashes unless it is made only of slashes. */
  function Dirname(p: string): (r: string)
    ensures StartsWith(p, r)
    ensures '/' !in p ==> r == []
    ensures '/' in p ==> r != []
  {
    var head := p[..LastIndex(p, '/') + 1];
    if head != [] && !AllSlashes(head) then StripTrailingSlashes(head) else head
  }

  /** The directory of dir/name, for a name without slashes, is dir. */
  lemma DirnameOfChild(dir: string, name: string)
    requires dir != [] && dir[|dir| - 1] != '/' && '/' !in name
    ensures Dirname(dir + "/" + name) == dir
  {
    var p := dir + "/" + name;
    assert p[|dir|] == '/';
    assert forall k :: |dir| < k < |p| ==> p[k] != '/' by {
      forall k | |dir| < k < |p|
        ensures p[k] != '/'
      {
        assert p[k] == name[k - |dir| - 1];
      }
    }
    assert LastIndex(p, '/') == |dir|;
    var head := p[..|dir| + 1];
    assert head == dir + "/";
    assert !AllSlashes(head) by {
      assert head[|dir| - 1] != '/';
    }
    assert StripTrailingSlashes(head) == dir by {
      assert head[..|head| - 1] == dir;
    }
  }

  /** Joining the directory of dir/name with a relative other gives
      dir/other: the path of a file beside name. */
  lemma SiblingPath(dir: string, name: string, other: string)
    requires dir != [] && dir[|dir| - 1] != '/' && '/' !in name
    requires other == [] || other[0] != '/'
    ensures Join(Dirname(dir + "/" + name), other) == dir + "/" + other
  {
    DirnameOfChild(dir, name);
    JoinRelative(dir, other);
  }

  /** splitext never cuts inside a leading part that holds no '.'. */
  lemma SplitExtKeepsPrefix(pre: string, s: string)
    requires '.' !in pre
    ensures StartsWith(SplitExt(pre + s).0, pre)
  {
    var p := pre + s;
    var d := ExtIndex(p);
    assert p[..|pre|] == pre;
    if d >= 0 {
      assert forall k :: 0 <= k < |pre| ==> p[k] == pre[k];
      assert p[..d][..|pre|] == pre;
    }
  }

  /** The last occurrence of c is the one no later character repeats. */
  lemma LastIndexIs(p: string, c: char, n: nat)
    requires n < |p| && p[n] == c
    requires forall k :: n < k < |p| ==> p[k] != c
    ensures LastIndex(p, c) == n
  {
  }

  /** A name whose stem ends in neither '.' nor '/', followed by a '.' and
      an extension free of both, splits at that '.'. */
  lemma SplitExtOfName(stem: string, ext: string)
    requires stem != [] && stem[|stem| - 1] != '.' && stem[|stem| - 1] != '/'
    requires '.' !in ext && '/' !in ext
    ensures SplitExt(stem + "." + ext) == (stem, "." + ext)
  {
    var p := stem + "." + ext;
    var n := |stem|;
    ExtIndexOfName(stem, ext);
    assert p[..n] == stem && p[n..] == "." + ext;
  }

  lemma ExtIndexOfName(stem: string, ext: string)
    requires stem != [] && stem[|stem| - 1] != '.' && stem[|stem| - 1] != '/'
    requires '.' !in ext && '/' !in ext
    ensures ExtIndex(stem + "." + ext) == |stem|
  {
    var p := stem + "." + ext;
    var n := |stem|;
    NameTail(stem, ext);
    LastIndexIs(p, '.', n);
    var slash := LastIndex(p, '/');
    assert slash < n - 1 by {
      assert p[n] == '.' && p[n - 1] == stem[n - 1];
    }
    assert p[slash + 1..n][n - 1 - (slash + 1)] == stem[n - 1];
  }

  /** After the '.' that ends the stem there is neither '.' nor '/'. */
  lemma NameTail(stem: string, ext: string)
    requires '.' !in ext && '/' !in ext
    ensures forall k :: |stem| < k < |stem + "." + ext| ==> (stem + "." + ext)[k] != '.' && (stem + "." + ext)[k] != '/'
  {
    var p := stem + "." + ext;
    forall k | |stem| < k < |p|
      ensures p[k] != '.' && p[k] != '/'
    {
      assert p[k] == ext[k - |stem| - 1];
    }
  }
}
