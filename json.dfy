/** `JSON.stringify` of an array of strings, as the upload form sends its
    tag list, and a decoder for that text, proved to give the strings back. */
module Json {
  import opened Replies
  import opened Sequences

  /** Lower-case hexadecimal digit, as `JSON.stringify` writes them. */
  function HexDigit(d: nat): char
    requires d < 16
  {
    if d < 10 then ('0' as int + d) as char else ('a' as int + d - 10) as char
  }

  function HexValue(c: char): Option<nat> {
    if '0' <= c <= '9' then Some(c as int - '0' as int)
    else if 'a' <= c <= 'f' then Some(c as int - 'a' as int + 10)
    else if 'A' <= c <= 'F' then Some(c as int - 'A' as int + 10)
    else None
  }

  lemma HexRoundTrip(d: nat)
    requires d < 16
    ensures HexValue(HexDigit(d)) == Some(d)
  {
  }

  /** How `JSON.stringify` writes one character inside a string literal:
      the quote, the backslash and the control characters are escaped. */
  function EscapeChar(c: char): (r: string)
    ensures r != [] && r[0] != '"'
  {
    if c == '"' then ['\\', '"']
    else if c == '\\' then ['\\', '\\']
    else if c as int == 0x08 then ['\\', 'b']
    else if c as int == 0x0C then ['\\', 'f']
    else if c == '\n' then ['\\', 'n']
    else if c == '\r' then ['\\', 'r']
    else if c == '\t' then ['\\', 't']
    else if c as int < 0x20 then ['\\', 'u', '0', '0', HexDigit(c as int / 16), HexDigit(c as int % 16)]
    else [c]
  }

  function Escape(s: string): string {
    if s == [] then [] else EscapeChar(s[0]) + Escape(s[1..])
  }

  /** `JSON.stringify(s)` for a string. */
  function Quote(s: string): string {
    ['"'] + Escape(s) + ['"']
  }

  function Items(xs: seq<string>): string {
    if xs == [] then []
    else if |xs| == 1 then Quote(xs[0])
    else Quote(xs[0]) + [','] + Items(xs[1..])
  }

  /** `JSON.stringify(xs)` for an array of strings: no spaces. */
  function Stringify(xs: seq<string>): (r: string)
    ensures 2 <= |r| && r[0] == '[' && r[|r| - 1] == ']'
    ensures xs == [] <==> |r| == 2
  {
    ['['] + Items(xs) + [']']
  }

  function Hex4(t: string): Option<nat>
    requires |t| >= 4
  {
    match (HexValue(t[0]), HexValue(t[1]), HexValue(t[2]), HexValue(t[3]))
    case (Some(a), Some(b), Some(c), Some(d)) => Some(4096 * a + 256 * b + 16 * c + d)
    case _ => None
  }

  /** Reads one character of a string literal's body at the front of `t`:
      a plain character or an escape sequence. Gives the character and how
      many characters of `t` it took. */
  function DecodeUnit(t: string): (r: Option<(char, nat)>)
    requires t != [] && t[0] != '"'
    ensures r.Some? ==> 1 <= r.value.1 <= |t|
  {
    if t[0] == '\\' then
      if |t| < 2 then None else DecodeEscape(t)
    else if t[0] as int < 0x20 then None
    else Some((t[0], 1))
  }

  /** An escape sequence: a backslash and one letter, or `\u` and four
      hexadecimal digits naming a code point outside the surrogate range. */
  function DecodeEscape(t: string): (r: Option<(char, nat)>)
    requires |t| >= 2
    ensures r.Some? ==> 2 <= r.value.1 <= |t|
  {
    if t[1] == '"' || t[1] == '\\' || t[1] == '/' then Some((t[1], 2))
    else if t[1] == 'b' then Some((0x08 as char, 2))
    else if t[1] == 'f' then Some((0x0C as char, 2))
    else if t[1] == 'n' then Some(('\n', 2))
    else if t[1] == 'r' then Some(('\r', 2))
    else if t[1] == 't' then Some(('\t', 2))
    else if t[1] == 'u' && |t| >= 6 then
      match Hex4(t[2..6])
      case Some(v) =>
        if v < 0xD800 || 0xE000 <= v then Some((v as char, 6)) else None
      case None => None
    else None
  }

  /** Reads a string literal's body up to its closing quote; gives the
      decoded string and what follows the quote. */
  function ReadString(t: string): (r: Option<(string, string)>)
    ensures r.Some? ==> |r.value.1| < |t|
    decreases |t|
  {
    if t == [] then None
    else if t[0] == '"' then Some(([], t[1..]))
    else
      match DecodeUnit(t)
      case None => None
      case Some((c, n)) =>
        match ReadString(t[n..])
        case None => None
        case Some((s, rest)) => Some(([c] + s, rest))
  }

  /** Reads `"..."` followed by `]`, or by `,` and more items. */
  function ParseItems(t: string): Option<seq<string>>
    decreases |t|
  {
    if t == [] || t[0] != '"' then None
    else
      match ReadString(t[1..])
      case None => None
      case Some((s, rest)) =>
        if rest == [']'] then Some([s])
        else if rest != [] && rest[0] == ',' then
          match ParseItems(rest[1..])
          case None => None
          case Some(ss) => Some([s] + ss)
        else None
  }

  /** Decodes a JSON array of strings written without spaces. */
  function Parse(t: string): Option<seq<string>> {
    if t == ['[', ']'] then Some([])
    else if t != [] && t[0] == '[' then ParseItems(t[1..])
    else None
  }

  lemma DecodeEscapeChar(c: char, rest: string)
    ensures DecodeUnit(EscapeChar(c) + rest) == Some((c, |EscapeChar(c)|))
  {
    var e := EscapeChar(c);
    var t := e + rest;
    assert t[0] == e[0];
    if c as int < 0x20 && c != '\n' && c != '\r' && c != '\t' && c as int != 0x08 && c as int != 0x0C {
      var n := c as int;
      HexRoundTrip(n / 16);
      HexRoundTrip(n % 16);
      assert t[2..6] == ['0', '0', HexDigit(n / 16), HexDigit(n % 16)];
      assert Hex4(t[2..6]) == Some(n);
    } else if |e| == 2 {
      assert t[1] == e[1];
    }
  }

  lemma {:induction false} ReadEscaped(s: string, rest: string)
    ensures ReadString(Escape(s) + ['"'] + rest) == Some((s, rest))
  {
    var t := Escape(s) + ['"'] + rest;
    if s == [] {
      assert t == ['"'] + rest;
    } else {
      var e := EscapeChar(s[0]);
      var tail := Escape(s[1..]) + ['"'] + rest;
      assert t == e + tail;
      DecodeEscapeChar(s[0], tail);
      assert t[|e|..] == tail;
      ReadEscaped(s[1..], rest);
      HeadTail(s);
    }
  }

  /** A quoted string followed by more text opens with the quote, and its
      body reads back to the string with the text after it left over. */
  lemma ReadQuoted(x: string, after: string)
    ensures var t := Quote(x) + after;
      t != [] && t[0] == '"' && ReadString(t[1..]) == Some((x, after))
  {
    var t := Quote(x) + after;
    assert t[1..] == Escape(x) + ['"'] + after;
    ReadEscaped(x, after);
  }

  lemma ParseLastItem(x: string)
    ensures ParseItems(Quote(x) + [']']) == Some([x])
  {
    ReadQuoted(x, [']']);
  }

  lemma ParseNextItem(x: string, after: string, ys: seq<string>)
    requires after != [] && after[0] == ',' && ParseItems(after[1..]) == Some(ys)
    ensures ParseItems(Quote(x) + after) == Some([x] + ys)
  {
    ReadQuoted(x, after);
    assert after != [']'] by {
      assert after[0] != ']';
    }
  }

  lemma {:induction false} ParseItemsRoundTrip(xs: seq<string>)
    requires xs != []
    ensures ParseItems(Items(xs) + [']']) == Some(xs)
  {
    if |xs| == 1 {
      assert Items(xs) == Quote(xs[0]);
      ParseLastItem(xs[0]);
      assert xs == [xs[0]];
    } else {
      var after := [','] + Items(xs[1..]) + [']'];
      ItemsCons(xs);
      ParseItemsRoundTrip(xs[1..]);
      assert after[1..] == Items(xs[1..]) + [']'];
      ParseNextItem(xs[0], after, xs[1..]);
      HeadTail(xs);
    }
  }

  lemma ItemsCons(xs: seq<string>)
    requires |xs| > 1
    ensures Items(xs) + [']'] == Quote(xs[0]) + ([','] + Items(xs[1..]) + [']'])
  {
    var q, m := Quote(xs[0]), Items(xs[1..]);
    assert Items(xs) == q + [','] + m;
    assert q + [','] + m + [']'] == q + ([','] + m + [']']) by {
      Regroup(q, [','], m, [']']);
    }
  }

  /** Decoding what `JSON.stringify` wrote gives exactly the strings back,
      in order. */
  lemma ParseStringify(xs: seq<string>)
    ensures Parse(Stringify(xs)) == Some(xs)
  {
    if xs != [] {
      var t := Stringify(xs);
      assert t[1..] == Items(xs) + [']'];
      assert Items(xs)[0] == '"';
      ParseItemsRoundTrip(xs);
    }
  }
}
