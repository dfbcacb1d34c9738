/** The JavaScript string operations the pages use: `String.prototype.trim`,
    `split(',')`, `Array.prototype.join`, and the comma-separated list
    parser `s.split(',').map(x => x.trim()).filter(x => x !== '')`. */
module Text {
  import opened Sequences

  /** ECMAScript WhiteSpace and LineTerminator code points: the set that both
      `trim()` strips and the regular-expression class `\s` matches. */
  predicate IsWhitespace(c: char) {
    var n := c as int;
    n == 0x09 || n == 0x0A || n == 0x0B || n == 0x0C || n == 0x0D || n == 0x20
    || n == 0xA0 || n == 0x1680 || (0x2000 <= n <= 0x200A) || n == 0x2028
    || n == 0x2029 || n == 0x202F || n == 0x205F || n == 0x3000 || n == 0xFEFF
  }

  predicate AllWhitespace(s: string) {
    forall i :: 0 <= i < |s| ==> IsWhitespace(s[i])
  }

  /** Neither starts nor ends with whitespace. */
  predicate IsTrimmed(s: string) {
    s == [] || (!IsWhitespace(s[0]) && !IsWhitespace(s[|s| - 1]))
  }

  /** How many whitespace characters `s` starts with. */
  function Leading(s: string): (k: nat)
    ensures k <= |s|
    ensures forall i :: 0 <= i < k ==> IsWhitespace(s[i])
    ensures k == |s| || !IsWhitespace(s[k])
  {
    if s == [] || !IsWhitespace(s[0]) then 0 else 1 + Leading(s[1..])
  }

  /** How many whitespace characters `s` ends with. */
  function Trailing(s: string): (k: nat)
    ensures k <= |s|
    ensures forall i :: |s| - k <= i < |s| ==> IsWhitespace(s[i])
    ensures k == |s| || !IsWhitespace(s[|s| - k - 1])
  {
    if s == [] || !IsWhitespace(s[|s| - 1]) then 0 else 1 + Trailing(s[..|s| - 1])
  }

  /** `s.trim()`: the middle of `s` once its leading and trailing whitespace
      are cut off. It is trimmed, and empty exactly when `s` is blank. */
  function Trim(s: string): (r: string)
    ensures IsTrimmed(r)
    ensures r == [] <==> AllWhitespace(s)
    ensures var k := Leading(s); k + |r| <= |s| && r == s[k..k + |r|]
    ensures forall i :: 0 <= i < Leading(s) || Leading(s) + |r| <= i < |s| ==> IsWhitespace(s[i])
  {
    var a := Leading(s);
    if a == |s| then [] else s[a..|s| - Trailing(s)]
  }

  /** Trimming keeps only characters of the input. */
  lemma TrimKeeps(s: string, c: char)
    requires c in Trim(s)
    ensures c in s
  {
    var r, k := Trim(s), Leading(s);
    var j :| 0 <= j < |r| && r[j] == c;
    assert r[j] == s[k..k + |r|][j] == s[k + j];
  }

  /** `s.split(sep)` for a one-character separator: the pieces between the
      separators, in order; `""` gives `[""]`. */
  function Split(s: string, sep: char): (parts: seq<string>)
    ensures |parts| >= 1
    ensures forall i :: 0 <= i < |parts| ==> sep !in parts[i]
  {
    if s == [] then [[]]
    else
      var rest := Split(s[1..], sep);
      if s[0] == sep then [[]] + rest
      else [[s[0]] + rest[0]] + rest[1..]
  }

  /** `parts.join(sep)`. */
  function Join(parts: seq<string>, sep: string): (r: string)
    ensures parts == [] ==> r == []
    ensures parts != [] ==> |r| + |sep| == JoinedLength(parts, |sep|)
    ensures parts != [] ==> |parts[0]| <= |r| && r[..|parts[0]|] == parts[0]
  {
    if parts == [] then []
    else if |parts| == 1 then parts[0]
    else parts[0] + sep + Join(parts[1..], sep)
  }

  /** The pieces' lengths, each counted with one separator after it. */
  function JoinedLength(parts: seq<string>, n: nat): nat {
    if parts == [] then 0 else |parts[0]| + n + JoinedLength(parts[1..], n)
  }

  /** Joining the pieces back with the separator gives the input: nothing
      is lost or reordered by `Split`. */
  lemma {:induction false} JoinSplit(s: string, sep: char)
    ensures Join(Split(s, sep), [sep]) == s
  {
    if s != [] {
      var rest := Split(s[1..], sep);
      JoinSplit(s[1..], sep);
      if s[0] == sep {
        assert Split(s, sep)[1..] == rest;
      } else if |rest| > 1 {
        var parts := Split(s, sep);
        assert parts[1..] == rest[1..];
        assert Join(rest, [sep]) == rest[0] + [sep] + Join(rest[1..], [sep]);
        HeadTail(s);
      } else {
        HeadTail(s);
      }
    }
  }

  lemma {:induction false} SplitNoSeparator(s: string, sep: char)
    requires sep !in s
    ensures Split(s, sep) == [s]
  {
    if s != [] {
      SplitNoSeparator(s[1..], sep);
      HeadTail(s);
    }
  }

  /** Splitting at one separator splits the input into the pieces of the
      left part followed by the pieces of the right part. */
  lemma {:induction false} SplitConcat(a: string, b: string, sep: char)
    ensures Split(a + [sep] + b, sep) == Split(a, sep) + Split(b, sep)
  {
    var s := a + [sep] + b;
    if a == [] {
      assert s[1..] == b;
    } else {
      assert s[1..] == a[1..] + [sep] + b;
      SplitConcat(a[1..], b, sep);
    }
  }

  /** Splitting a join of separator-free pieces gives the pieces back. */
  lemma {:induction false} SplitJoin(parts: seq<string>, sep: char)
    requires |parts| >= 1
    requires forall i :: 0 <= i < |parts| ==> sep !in parts[i]
    ensures Split(Join(parts, [sep]), sep) == parts
  {
    SplitNoSeparator(parts[0], sep);
    if |parts| > 1 {
      SplitJoin(parts[1..], sep);
      SplitConcat(parts[0], Join(parts[1..], [sep]), sep);
      HeadTail(parts);
    }
  }

  /** `parts.map(x => x.trim())` */
  function TrimAll(parts: seq<string>): (r: seq<string>)
    ensures |r| == |parts|
    ensures forall i :: 0 <= i < |r| ==> r[i] == Trim(parts[i])
  {
    if parts == [] then [] else [Trim(parts[0])] + TrimAll(parts[1..])
  }

  /** `parts.filter(x => x !== '')` */
  function DropEmpty(parts: seq<string>): (r: seq<string>)
    ensures |r| <= |parts|
    ensures forall x :: x in r <==> x in parts && x != []
  {
    if parts == [] then []
    else if parts[0] == [] then DropEmpty(parts[1..])
    else [parts[0]] + DropEmpty(parts[1..])
  }

  lemma {:induction false} DropEmptyConcat(a: seq<string>, b: seq<string>)
    ensures DropEmpty(a + b) == DropEmpty(a) + DropEmpty(b)
  {
    if a == [] {
      assert a + b == b;
    } else {
      assert (a + b)[0] == a[0];
      assert (a + b)[1..] == a[1..] + b;
      DropEmptyConcat(a[1..], b);
    }
  }

  /** `s.split(',').map(x => x.trim())`: the comma-separated pieces,
      trimmed, empty ones kept. */
  function SplitTrim(s: string): (r: seq<string>)
    ensures |r| >= 1
    ensures forall i :: 0 <= i < |r| ==> IsTrimmed(r[i]) && ',' !in r[i]
  {
    var parts := Split(s, ',');
    var r := TrimAll(parts);
    forall i | 0 <= i < |r| ensures ',' !in r[i] {
      if ',' in r[i] { TrimKeeps(parts[i], ','); }
    }
    r
  }

  /** `s.split(',').map(x => x.trim()).filter(x => x !== '')`: the
      comma-separated pieces, trimmed, empty ones dropped. */
  function ParseList(s: string): (r: seq<string>)
    ensures forall x :: x in r ==> x != [] && IsTrimmed(x) && ',' !in x
  {
    var t := SplitTrim(s);
    var r := DropEmpty(t);
    assert forall x :: x in r ==> x in t;
    r
  }

  /** Nothing but whitespace and commas. */
  predicate IsBlankList(s: string) {
    forall i :: 0 <= i < |s| ==> IsWhitespace(s[i]) || s[i] == ','
  }

  lemma BlankListConcat(a: string, b: string)
    ensures IsBlankList(a + [','] + b) <==> IsBlankList(a) && IsBlankList(b)
  {
    var s := a + [','] + b;
    assert forall i :: 0 <= i < |a| ==> s[i] == a[i];
    assert forall i :: 0 <= i < |b| ==> s[|a| + 1 + i] == b[i];
  }

  lemma {:induction false} TrimAllConcat(x: seq<string>, y: seq<string>)
    ensures TrimAll(x + y) == TrimAll(x) + TrimAll(y)
  {
    if x == [] {
      assert x + y == y;
    } else {
      assert (x + y)[0] == x[0];
      assert (x + y)[1..] == x[1..] + y;
      TrimAllConcat(x[1..], y);
    }
  }

  /** The list of a comma-free input is its trimmed text, or nothing when it
      is blank. */
  lemma ParseListPiece(s: string)
    requires ',' !in s
    ensures ParseList(s) == if AllWhitespace(s) then [] else [Trim(s)]
  {
    SplitNoSeparator(s, ',');
  }

  /** The pieces come out in input order: a comma splits the list into the
      list of the left part followed by the list of the right part. */
  lemma ParseListConcat(a: string, b: string)
    ensures ParseList(a + [','] + b) == ParseList(a) + ParseList(b)
  {
    SplitConcat(a, b, ',');
    var pa, pb := Split(a, ','), Split(b, ',');
    TrimAllConcat(pa, pb);
    DropEmptyConcat(TrimAll(pa), TrimAll(pb));
  }

  /** The list is empty exactly when the input holds nothing but whitespace
      and commas. */
  lemma {:induction false} ParseListEmpty(s: string)
    ensures ParseList(s) == [] <==> IsBlankList(s)
    decreases |s|
  {
    if ',' !in s {
      ParseListPiece(s);
      assert IsBlankList(s) <==> AllWhitespace(s);
    } else {
      var k :| 0 <= k < |s| && s[k] == ',';
      var a, b := s[..k], s[k + 1..];
      assert s == a + [','] + b;
      ParseListConcat(a, b);
      BlankListConcat(a, b);
      ParseListEmpty(a);
      ParseListEmpty(b);
    }
  }

  lemma TrimOfTrimmed(t: string)
    requires IsTrimmed(t)
    ensures Trim(t) == t
  {
  }

  /** `Trim(s)` is the only trimmed non-empty middle of `s` with whitespace
      on both sides. */
  lemma TrimUnique(s: string, k: nat, r: string)
    requires r != [] && IsTrimmed(r)
    requires k + |r| <= |s| && r == s[k..k + |r|]
    requires forall i :: 0 <= i < k || k + |r| <= i < |s| ==> IsWhitespace(s[i])
    ensures Trim(s) == r
  {
    assert s[k] == r[0] && s[k + |r| - 1] == r[|r| - 1];
    assert Leading(s) == k;
    var t := Trim(s);
    assert t != [];
    assert s[k + |t| - 1] == t[|t| - 1];
  }

  lemma TrimLeadingWhitespace(c: char, t: string)
    requires IsWhitespace(c)
    ensures Trim([c] + t) == Trim(t)
  {
    var s := [c] + t;
    if !AllWhitespace(t) {
      var r := Trim(t);
      var k := Leading(t);
      assert s[1..] == t;
      assert s[k + 1..k + 1 + |r|] == s[1..][k..k + |r|];
      forall i | 0 <= i < k + 1 || k + 1 + |r| <= i < |s|
        ensures IsWhitespace(s[i])
      {
        if i > 0 { assert s[i] == t[i - 1]; }
      }
      TrimUnique(s, k + 1, r);
    } else {
      assert AllWhitespace(s) by {
        assert forall i :: 1 <= i < |s| ==> s[i] == t[i - 1];
      }
    }
  }

  /** Editing an album shows its shared users joined with ", "; saving sends
      the text back through `split(',').map(trim)`. That gives the same list
      back exactly when the list is non-empty and every address is trimmed and
      comma-free; in particular an empty list comes back as `[""]`. */
  lemma {:induction false} EditRoundTrip(users: seq<string>)
    ensures SplitTrim(Join(users, ", ")) == users
        <==> users != [] && forall i :: 0 <= i < |users| ==> IsTrimmed(users[i]) && ',' !in users[i]
  {
    if users != [] && forall i :: 0 <= i < |users| ==> IsTrimmed(users[i]) && ',' !in users[i] {
      EditRoundTripForward(users);
    }
  }

  lemma {:induction false} EditRoundTripForward(users: seq<string>)
    requires users != []
    requires forall i :: 0 <= i < |users| ==> IsTrimmed(users[i]) && ',' !in users[i]
    ensures SplitTrim(Join(users, ", ")) == users
  {
    TrimOfTrimmed(users[0]);
    if |users| == 1 {
      SplitTrimPiece(users[0]);
    } else {
      var tail := Join(users[1..], ", ");
      JoinCommaSpace(users);
      SplitTrimAfterComma(users[0], tail);
      assert forall i :: 0 <= i < |users| - 1 ==> users[1..][i] == users[i + 1];
      EditRoundTripForward(users[1..]);
      var joined := users[0] + [','] + ([' '] + tail);
      assert SplitTrim(joined) == [users[0]] + users[1..];
      HeadTail(users);
      assert Join(users, ", ") == joined;
    }
  }

  lemma SplitTrimPiece(s: string)
    requires ',' !in s
    ensures SplitTrim(s) == [Trim(s)]
  {
    SplitNoSeparator(s, ',');
  }

  lemma JoinCommaSpace(parts: seq<string>)
    requires |parts| > 1
    ensures Join(parts, ", ") == parts[0] + [','] + ([' '] + Join(parts[1..], ", "))
  {
    CommaSpace(parts[0], Join(parts[1..], ", "));
  }

  /** ", " is a comma and then a space. */
  lemma CommaSpace(a: string, b: string)
    ensures a + ", " + b == a + [','] + ([' '] + b)
  {
    assert ", " == [','] + [' '];
    Regroup(a, [','], [' '], b);
    assert [','] + [' '] + b == [','] + ([' '] + b);
  }

  /** A comma followed by a space: the space is trimmed off the next piece. */
  lemma SplitTrimAfterComma(head: string, tail: string)
    requires ',' !in head
    ensures SplitTrim(head + [','] + ([' '] + tail)) == [Trim(head)] + SplitTrim(tail)
  {
    SplitNoSeparator(head, ',');
    SplitConcat(head, [' '] + tail, ',');
    SplitLeadingChar(' ', tail);
    var pt := Split(tail, ',');
    var ps := Split([' '] + tail, ',');
    TrimLeadingWhitespace(' ', pt[0]);
    assert TrimAll(ps) == TrimAll(pt);
    TrimAllConcat([head], ps);
  }

  lemma SplitLeadingChar(c: char, t: string)
    requires c != ','
    ensures var p := Split(t, ','); Split([c] + t, ',') == [[c] + p[0]] + p[1..]
  {
    assert ([c] + t)[1..] == t;
  }
}
