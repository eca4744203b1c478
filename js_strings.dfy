/** The few JavaScript string operations the services and the seed script
    rely on, over `seq<char>`. */
module JsStrings {

  /** JavaScript's WhiteSpace and LineTerminator characters, the set that
      `String.prototype.trim` removes (note that it includes U+FEFF). */
  predicate IsJsWhitespace(c: char) {
    || c == ' ' || c == '\t' || c == '\n' || c == '\r' || c == '\U{000B}' || c == '\U{000C}'
    || c == '\U{00A0}' || c == '\U{1680}' || ('\U{2000}' <= c <= '\U{200A}')
    || c == '\U{2028}' || c == '\U{2029}' || c == '\U{202F}' || c == '\U{205F}'
    || c == '\U{3000}' || c == '\U{FEFF}'
  }

  function TrimStart(s: string): (r: string)
    ensures |r| <= |s| && r == s[|s| - |r|..]
    ensures r == [] || !IsJsWhitespace(r[0])
    ensures forall i :: 0 <= i < |s| - |r| ==> IsJsWhitespace(s[i])
  {
    if |s| > 0 && IsJsWhitespace(s[0]) then TrimStart(s[1..]) else s
  }

  function TrimEnd(s: string): (r: string)
    ensures |r| <= |s| && r == s[..|r|]
    ensures r == [] || !IsJsWhitespace(r[|r| - 1])
    ensures forall i :: |r| <= i < |s| ==> IsJsWhitespace(s[i])
  {
    if |s| > 0 && IsJsWhitespace(s[|s| - 1]) then TrimEnd(s[..|s| - 1]) else s
  }

  /** `s.trim()` */
  function Trim(s: string): (r: string)
    ensures r == [] || (!IsJsWhitespace(r[0]) && !IsJsWhitespace(r[|r| - 1]))
    ensures forall c :: c in r ==> c in s
    ensures r == [] <==> forall i :: 0 <= i < |s| ==> IsJsWhitespace(s[i])
  {
    TrimKeepsChars(s);
    TrimEmpty(s);
    TrimEnd(TrimStart(s))
  }

  lemma TrimKeepsChars(s: string)
    ensures forall c :: c in TrimEnd(TrimStart(s)) ==> c in s
  {
    var t := TrimStart(s);
    InSlices(t, |TrimEnd(t)|);
    InSlices(s, |s| - |t|);
  }

  /** What a prefix or a suffix holds, the whole holds. */
  lemma InSlices(s: string, n: nat)
    requires n <= |s|
    ensures forall c :: c in s[..n] ==> c in s
    ensures forall c :: c in s[n..] ==> c in s
  {
    forall c | c in s[..n] ensures c in s {
      var i :| 0 <= i < n && s[..n][i] == c;
      assert s[i] == c;
    }
    forall c | c in s[n..] ensures c in s {
      var i :| 0 <= i < |s| - n && s[n..][i] == c;
      assert s[n + i] == c;
    }
  }

  lemma TrimEmpty(s: string)
    ensures TrimEnd(TrimStart(s)) == [] <==> forall i :: 0 <= i < |s| ==> IsJsWhitespace(s[i])
  {
    var t := TrimStart(s);
    if t != [] {
      assert s[|s| - |t|] == t[0];
    }
  }

  predicate StartsWith(s: string, prefix: string) {
    |prefix| <= |s| && s[..|prefix|] == prefix
  }

  /** `s.split(sep)` for a separator that matches exactly one character of
      `seps`: the pieces between separators, empty pieces included. */
  function Split(s: string, seps: set<char>): (parts: seq<string>)
    ensures |parts| == 1 + CountIn(s, seps)
    ensures forall k, c :: 0 <= k < |parts| && c in parts[k] ==> c !in seps
    decreases |s|
  {
    if |s| == 0 then [""]
    else
      var rest := Split(s[1..], seps);
      if s[0] in seps then [""] + rest
      else [[s[0]] + rest[0]] + rest[1..]
  }

  /** Number of characters of `s` that belong to `seps`. */
  function CountIn(s: string, seps: set<char>): (r: nat)
    decreases |s|
  {
    if |s| == 0 then 0 else (if s[0] in seps then 1 else 0) + CountIn(s[1..], seps)
  }

  /** Joining the pieces with the separator gives back the input. */
  function Join(parts: seq<string>, sep: char): (r: string)
    requires |parts| >= 1
    decreases |parts|
  {
    if |parts| == 1 then parts[0] else parts[0] + [sep] + Join(parts[1..], sep)
  }

  lemma {:induction false} SplitJoin(s: string, sep: char)
    ensures Join(Split(s, {sep}), sep) == s
    decreases |s|
  {
    if |s| > 0 {
      SplitJoin(s[1..], sep);
      var rest := Split(s[1..], {sep});
      if s[0] != sep {
        if |rest| == 1 {
        } else {
          assert Join(rest, sep) == rest[0] + [sep] + Join(rest[1..], sep);
          var parts := [[s[0]] + rest[0]] + rest[1..];
          assert parts[1..] == rest[1..];
        }
      } else {
        assert ([""] + rest)[1..] == rest;
      }
    }
  }

  /** Splitting a piece free of separators followed by a separator (or by
      nothing) gives that piece first, then the split of what follows the
      separator. */
  lemma {:induction false} SplitHead(a: string, b: string, seps: set<char>)
    requires forall c :: c in a ==> c !in seps
    requires b == [] || b[0] in seps
    ensures Split(a + b, seps)[0] == a
    ensures b != [] ==> Split(a + b, seps)[1..] == Split(b[1..], seps)
    ensures b == [] ==> Split(a + b, seps) == [a]
    decreases |a|
  {
    if a == [] {
      assert a + b == b;
      if b != [] {
        assert ([""] + Split(b[1..], seps))[1..] == Split(b[1..], seps);
      }
    } else {
      SplitHead(a[1..], b, seps);
      assert (a + b)[0] == a[0];
      assert (a + b)[1..] == a[1..] + b;
      var rest := Split(a[1..] + b, seps);
      assert Split(a + b, seps) == [[a[0]] + rest[0]] + rest[1..];
      assert [a[0]] + a[1..] == a;
    }
  }

  /** Splitting one character more starts a new empty piece when the
      character is a separator... */
  lemma {:induction false} SplitSnocSep(s: string, c: char, seps: set<char>)
    requires c in seps
    ensures Split(s + [c], seps) == Split(s, seps) + [""]
    decreases |s|
  {
    if s == [] {
      assert s + [c] == [c];
      assert [c][1..] == [];
    } else {
      SplitSnocSep(s[1..], c, seps);
      assert (s + [c])[0] == s[0];
      assert (s + [c])[1..] == s[1..] + [c];
      var q := Split(s[1..], seps);
      if s[0] !in seps {
        var p := Split(s, seps);
        assert p == [[s[0]] + q[0]] + q[1..];
        assert (q + [""])[0] == q[0];
        assert (q + [""])[1..] == q[1..] + [""];
      }
    }
  }

  /** ...and otherwise extends the last piece. */
  lemma {:induction false} SplitSnocOther(s: string, c: char, seps: set<char>)
    requires c !in seps
    ensures var p := Split(s, seps); Split(s + [c], seps) == p[..|p| - 1] + [p[|p| - 1] + [c]]
    decreases |s|
  {
    if s == [] {
      assert s + [c] == [c];
      assert [c][1..] == [];
      assert Split([c], seps) == [[c] + ""] + [];
      assert [c] + "" == "" + [c];
    } else {
      SplitSnocOther(s[1..], c, seps);
      assert (s + [c])[0] == s[0];
      assert (s + [c])[1..] == s[1..] + [c];
      var q := Split(s[1..], seps);
      assert Split(s[1..] + [c], seps) == ExtendLast(q, c);
      if s[0] in seps {
        ExtendLastCons("", q, c);
      } else {
        ExtendLastGlue([s[0]], q, c);
      }
    }
  }

  /** The pieces with `c` appended to the last one. */
  function ExtendLast(p: seq<string>, c: char): (r: seq<string>)
    requires |p| >= 1
  {
    p[..|p| - 1] + [p[|p| - 1] + [c]]
  }

  lemma ExtendLastCons(h: string, q: seq<string>, c: char)
    requires |q| >= 1
    ensures [h] + ExtendLast(q, c) == ExtendLast([h] + q, c)
  {
    assert ([h] + q)[..|q|] == [h] + q[..|q| - 1];
  }

  lemma ExtendLastGlue(x: string, q: seq<string>, c: char)
    requires |q| >= 1
    ensures var e := ExtendLast(q, c);
      [x + e[0]] + e[1..] == ExtendLast([x + q[0]] + q[1..], c)
  {
    var e := ExtendLast(q, c);
    if |q| == 1 {
      assert x + (q[0] + [c]) == (x + q[0]) + [c];
    } else {
      assert e[0] == q[0];
      assert e[1..] == ExtendLast(q[1..], c);
      ExtendLastCons(x + q[0], q[1..], c);
    }
  }

  /** Splitting what Join glued together gives back the pieces, provided no
      piece contains a separator. */
  lemma {:induction false} SplitOfJoin(parts: seq<string>, sep: char, seps: set<char>)
    requires |parts| >= 1 && sep in seps
    requires forall k, c :: 0 <= k < |parts| && c in parts[k] ==> c !in seps
    ensures Split(Join(parts, sep), seps) == parts
    decreases |parts|
  {
    if |parts| == 1 {
      SplitHead(parts[0], [], seps);
      assert parts[0] + [] == parts[0];
    } else {
      SplitOfJoin(parts[1..], sep, seps);
      var tail := [sep] + Join(parts[1..], sep);
      assert Join(parts, sep) == parts[0] + tail;
      SplitHead(parts[0], tail, seps);
      assert tail[1..] == Join(parts[1..], sep);
      var r := Split(Join(parts, sep), seps);
      assert r == [r[0]] + r[1..];
    }
  }

  /** Counting over one character more. */
  lemma {:induction false} CountInSnoc(s: string, c: char, seps: set<char>)
    ensures CountIn(s + [c], seps) == CountIn(s, seps) + (if c in seps then 1 else 0)
    decreases |s|
  {
    if s != [] {
      CountInSnoc(s[1..], c, seps);
      assert (s + [c])[1..] == s[1..] + [c];
    }
  }

  /** Every character of a joined string is the separator or comes from a piece. */
  lemma {:induction false} JoinChars(parts: seq<string>, sep: char, c: char)
    requires |parts| >= 1
    requires c in Join(parts, sep)
    ensures c == sep || exists k :: 0 <= k < |parts| && c in parts[k]
    decreases |parts|
  {
    if |parts| > 1 && c !in parts[0] && c != sep {
      JoinChars(parts[1..], sep, c);
      var k :| 0 <= k < |parts[1..]| && c in parts[1..][k];
      assert c in parts[k + 1];
    }
  }

  /** Trimming twice trims once. */
  lemma TrimIdempotent(s: string)
    ensures Trim(Trim(s)) == Trim(s)
  {
    TrimOfTrimmed(Trim(s));
  }

  /** A string that starts and ends with non-whitespace trims to itself. */
  lemma TrimOfTrimmed(s: string)
    requires s == [] || (!IsJsWhitespace(s[0]) && !IsJsWhitespace(s[|s| - 1]))
    ensures Trim(s) == s
  {
    assert TrimStart(s) == s;
    assert TrimEnd(s) == s;
  }

  /** ASCII `toLowerCase`: A-Z are mapped to a-z, every other character is kept. */
  function LowerChar(c: char): (r: char) {
    if 'A' <= c <= 'Z' then (c as int + 32) as char else c
  }

  function Lower(s: string): (r: string)
    ensures |r| == |s|
    ensures forall i :: 0 <= i < |s| ==> r[i] == LowerChar(s[i])
  {
    seq(|s|, i requires 0 <= i < |s| => LowerChar(s[i]))
  }

  /** `needle` occurs in `hay` as a contiguous piece. */
  predicate Contains(hay: string, needle: string) {
    exists i :: 0 <= i <= |hay| && needle <= hay[i..]
  }
}
