/** JSON Pointers (RFC 6901): tokens, escapes and array indices. */
module Pointer {
  import opened Common
  import opened Text

  // ---------------------------------------------------------------- escaping

  /** Replaces every "~d" by one character, left to right. */
  function Substitute(s: string, d: char, by_: char): string {
    if |s| >= 2 && s[0] == '~' && s[1] == d then [by_] + Substitute(s[2..], d, by_)
    else if s == [] then []
    else [s[0]] + Substitute(s[1..], d, by_)
  }

  /** Two passes: "~1" to "/", then "~0" to "~". */
  function Unescape(s: string): string { Substitute(Substitute(s, '1', '/'), '0', '~') }

  function EscapeChar(c: char): string { if c == '~' then "~0" else if c == '/' then "~1" else [c] }

  function Escape(s: string): string { if s == [] then [] else EscapeChar(s[0]) + Escape(s[1..]) }

  /** Only the tilde escaped. */
  function EscapeTilde(s: string): string {
    if s == [] then [] else (if s[0] == '~' then "~0" else [s[0]]) + EscapeTilde(s[1..])
  }

  lemma {:induction false} FirstPass(s: string)
    ensures Substitute(Escape(s), '1', '/') == EscapeTilde(s)
  {
    if s != [] {
      FirstPass(s[1..]);
      var rest := Escape(s[1..]);
      var e := Escape(s);
      if s[0] == '~' {
        assert e == ['~', '0'] + rest && e[1..] == ['0'] + rest && e[1..][1..] == rest;
        assert Substitute(e[1..], '1', '/') == ['0'] + Substitute(rest, '1', '/');
      } else if s[0] == '/' {
        assert e == ['~', '1'] + rest && e[2..] == rest;
      } else {
        assert e == [s[0]] + rest && e[1..] == rest;
      }
    }
  }

  lemma {:induction false} SecondPass(s: string)
    ensures Substitute(EscapeTilde(s), '0', '~') == s
  {
    if s != [] {
      SecondPass(s[1..]);
      var rest := EscapeTilde(s[1..]);
      var e := EscapeTilde(s);
      if s[0] == '~' {
        assert e == ['~', '0'] + rest && e[2..] == rest;
      } else {
        assert e == [s[0]] + rest && e[1..] == rest;
      }
      assert s == [s[0]] + s[1..];
    }
  }

  /** Unescaping inverts escaping, for every token. */
  lemma UnescapeInvertsEscape(s: string)
    ensures Unescape(Escape(s)) == s
  {
    FirstPass(s);
    SecondPass(s);
  }

  // ---------------------------------------------------------------- splitting

  /** The tokens of a pointer: none for the empty pointer, else what follows each slash. */
  function SplitPointer(path: string): Option<seq<string>> {
    if path == [] then Some([])
    else if path[0] != '/' then None
    else var raw := Split(path[1..], '/'); Some(seq(|raw|, i requires 0 <= i < |raw| => Unescape(raw[i])))
  }

  function Join(tokens: seq<string>): string {
    if tokens == [] then [] else ['/'] + (Escape(tokens[0]) + Join(tokens[1..]))
  }

  lemma {:induction false} EscapedHasNoSlash(s: string)
    ensures Without(Escape(s), '/')
  {
    if s != [] { EscapedHasNoSlash(s[1..]); }
  }

  function EscapeAll(tokens: seq<string>): (r: seq<string>)
    ensures |r| == |tokens| && forall i :: 0 <= i < |r| ==> r[i] == Escape(tokens[i])
  {
    if tokens == [] then [] else [Escape(tokens[0])] + EscapeAll(tokens[1..])
  }

  lemma JoinTail(tokens: seq<string>)
    requires tokens != []
    ensures Join(tokens) != [] && Join(tokens)[0] == '/' && Join(tokens)[1..] == Escape(tokens[0]) + Join(tokens[1..])
  {
    TailOfCons('/', Escape(tokens[0]) + Join(tokens[1..]));
  }

  lemma TailOfCons(c: char, s: string)
    ensures ([c] + s)[1..] == s && ([c] + s)[0] == c
  {
  }

  /** The raw tokens of a joined pointer. */
  lemma {:induction false} SplitOfJoin(tokens: seq<string>)
    requires tokens != []
    ensures Join(tokens) != [] && Split(Join(tokens)[1..], '/') == EscapeAll(tokens)
  {
    var e, rest := Escape(tokens[0]), tokens[1..];
    EscapedHasNoSlash(tokens[0]);
    JoinTail(tokens);
    if rest == [] {
      SplitPlain(e, '/');
      assert e + [] == e;
    } else {
      SplitOfJoin(rest);
      JoinTail(rest);
      SplitBefore(e, Join(rest));
    }
  }

  lemma SplitBefore(e: string, tail: string)
    requires Without(e, '/') && tail != [] && tail[0] == '/'
    ensures Split(e + tail, '/') == [e] + Split(tail[1..], '/')
  {
    SplitAt(e, '/', tail[1..]);
    assert e + tail == e + ['/'] + tail[1..];
  }

  /** Every list of tokens survives being written as a pointer and read back. */
  lemma PointerRoundTrip(tokens: seq<string>)
    ensures SplitPointer(Join(tokens)) == Some(tokens)
  {
    if tokens != [] {
      SplitOfJoin(tokens);
      JoinTail(tokens);
      var r := SplitPointer(Join(tokens)).value;
      forall i | 0 <= i < |tokens| ensures r[i] == tokens[i] { UnescapeInvertsEscape(tokens[i]); }
      assert r == tokens;
    }
  }

  // ---------------------------------------------------------------- array indices

  /** An unsigned integer, with an optional plus sign and any number of leading zeros. */
  function ParseIndex(tok: string): Option<nat> {
    var digits := if tok != [] && tok[0] == '+' then tok[1..] else tok;
    if Digits(digits) then Some(DecimalValue(digits)) else None
  }
}
