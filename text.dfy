/**
 * The small part of Go's `strings`, `filepath` and `fmt` packages that the
 * spec-assembly code relies on, over `string` (a sequence of characters).
 * Case mapping is ASCII-only.
 */
module Text {

  /** strings.HasPrefix */
  predicate HasPrefix(s: string, prefix: string) {
    |prefix| <= |s| && s[..|prefix|] == prefix
  }

  /** filepath.IsAbs on Unix: the path starts at the root. */
  predicate IsAbs(path: string) {
    |path| > 0 && path[0] == '/'
  }

  /** Index of the first `sep` in `s`, or |s| when there is none. */
  function IndexOf(s: string, sep: char): (i: nat)
    ensures i <= |s|
    ensures i < |s| ==> s[i] == sep
    ensures sep !in s[..i]
  {
    if s == [] then 0
    else if s[0] == sep then 0
    else 1 + IndexOf(s[1..], sep)
  }

  /** strings.Cut with a one-character separator: text before and after the first `sep`, and whether there was one. */
  function Cut(s: string, sep: char): (r: (string, string, bool))
    ensures r.2 <==> sep in s
    ensures sep !in r.0
    ensures r.2 ==> s == r.0 + [sep] + r.1
    ensures !r.2 ==> r.0 == s && r.1 == ""
  {
    var i := IndexOf(s, sep);
    if i < |s| then
      assert s == s[..i] + [sep] + s[i + 1..];
      (s[..i], s[i + 1..], true)
    else
      assert s[..i] == s;
      (s, "", false)
  }

  /** strings.Split with a one-character separator: |result| is one more than the number of separators. */
  function Split(s: string, sep: char): (parts: seq<string>)
    ensures |parts| >= 1
    ensures forall k :: 0 <= k < |parts| ==> sep !in parts[k]
    decreases |s|
  {
    var (before, after, found) := Cut(s, sep);
    if found then [before] + Split(after, sep) else [before]
  }

  /** strings.Join with a one-character separator. */
  function Join(parts: seq<string>, sep: char): string {
    if parts == [] then ""
    else if |parts| == 1 then parts[0]
    else parts[0] + [sep] + Join(parts[1..], sep)
  }

  /** Joining the pieces of a split gives back the original text. */
  lemma {:induction false} JoinSplit(s: string, sep: char)
    ensures Join(Split(s, sep), sep) == s
    decreases |s|
  {
    var (before, after, found) := Cut(s, sep);
    if found {
      JoinSplit(after, sep);
      assert Split(s, sep) == [before] + Split(after, sep);
    }
  }

  /** Splitting a join of separator-free pieces gives back the pieces. */
  lemma {:induction false} SplitJoin(parts: seq<string>, sep: char)
    requires |parts| >= 1
    requires forall k :: 0 <= k < |parts| ==> sep !in parts[k]
    ensures Split(Join(parts, sep), sep) == parts
  {
    if |parts| > 1 {
      var rest := Join(parts[1..], sep);
      var s := parts[0] + [sep] + rest;
      assert s == parts[0] + ([sep] + rest);
      assert IndexOf(s, sep) == |parts[0]| by { IndexPastPrefix(parts[0], sep, [sep] + rest); }
      assert s[..|parts[0]|] == parts[0];
      assert s[|parts[0]| + 1..] == rest;
      SplitJoin(parts[1..], sep);
    } else {
      assert IndexOf(parts[0], sep) == |parts[0]|;
    }
  }

  lemma {:induction false} IndexPastPrefix(p: string, sep: char, t: string)
    requires sep !in p
    requires |t| > 0 && t[0] == sep
    ensures IndexOf(p + t, sep) == |p|
  {
    if p != [] {
      assert (p + t)[1..] == p[1..] + t;
      IndexPastPrefix(p[1..], sep, t);
    } else {
      assert p + t == t;
    }
  }

  function LowerChar(c: char): char {
    if 'A' <= c <= 'Z' then (c as int + 32) as char else c
  }

  function UpperChar(c: char): char {
    if 'a' <= c <= 'z' then (c as int - 32) as char else c
  }

  /** strings.ToLower, ASCII letters only. */
  function ToLower(s: string): (r: string)
    ensures |r| == |s|
    ensures forall k :: 0 <= k < |s| ==> r[k] == LowerChar(s[k])
  {
    if s == [] then "" else [LowerChar(s[0])] + ToLower(s[1..])
  }

  /** strings.ToUpper, ASCII letters only. */
  function ToUpper(s: string): (r: string)
    ensures |r| == |s|
    ensures forall k :: 0 <= k < |s| ==> r[k] == UpperChar(s[k])
  {
    if s == [] then "" else [UpperChar(s[0])] + ToUpper(s[1..])
  }

  /** The characters whose ASCII lower case is the lower-case letter `t`. */
  lemma LowerCharIs(c: char, t: char)
    requires 'a' <= t <= 'z'
    ensures LowerChar(c) == t <==> c == t || c == UpperChar(t)
  {
  }

  /** `ToLower(s) == "all"` holds exactly for the spellings of "all" in mixed case. */
  lemma LowerIsAll(s: string)
    ensures ToLower(s) == "all" <==>
      |s| == 3 && (s[0] == 'a' || s[0] == 'A') && (s[1] == 'l' || s[1] == 'L') && (s[2] == 'l' || s[2] == 'L')
  {
    if |s| == 3 {
      LowerCharIs(s[0], 'a');
      LowerCharIs(s[1], 'l');
      LowerCharIs(s[2], 'l');
      var r := ToLower(s);
      assert r == "all" <==> r[0] == 'a' && r[1] == 'l' && r[2] == 'l';
    }
  }

  /** Decimal digits of a natural number, as `fmt.Sprintf("%d", n)` writes them. */
  function NatToString(n: nat): (r: string)
    ensures |r| >= 1
    ensures forall k :: 0 <= k < |r| ==> '0' <= r[k] <= '9'
    ensures n >= 10 ==> r[0] != '0'
    decreases n
  {
    if n < 10 then [DigitChar(n)] else NatToString(n / 10) + [DigitChar(n % 10)]
  }

  function DigitChar(d: nat): (c: char)
    requires d < 10
    ensures '0' <= c <= '9'
  {
    ('0' as int + d) as char
  }

  /** Reads a string of decimal digits back as a number. */
  function ParseNat(s: string): nat
    requires forall k :: 0 <= k < |s| ==> '0' <= s[k] <= '9'
  {
    if s == [] then 0 else 10 * ParseNat(s[..|s| - 1]) + (s[|s| - 1] as int - '0' as int)
  }

  /** Printing a number and reading it back is the identity, so distinct numbers print differently. */
  lemma {:induction false} ParsePrinted(n: nat)
    ensures ParseNat(NatToString(n)) == n
    decreases n
  {
    if n >= 10 {
      var s := NatToString(n);
      assert s[..|s| - 1] == NatToString(n / 10);
      ParsePrinted(n / 10);
    }
  }

  lemma NatToStringInjective(m: nat, n: nat)
    requires NatToString(m) == NatToString(n)
    ensures m == n
  {
    ParsePrinted(m);
    ParsePrinted(n);
  }
}
