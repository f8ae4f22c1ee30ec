/** Splitting text and reading decimal numbers. */
module Text {
  import opened Common

  /** The pieces between separators; always at least one. */
  function Split(s: string, sep: char): (r: seq<string>)
    ensures r != []
  {
    if s == [] then [[]]
    else
      var rest := Split(s[1..], sep);
      if s[0] == sep then [[]] + rest else [[s[0]] + rest[0]] + rest[1..]
  }

  ghost predicate Without(s: string, c: char) { forall i :: 0 <= i < |s| ==> s[i] != c }

  lemma {:induction false} SplitPlain(s: string, sep: char)
    requires Without(s, sep)
    ensures Split(s, sep) == [s]
  {
    if s != [] {
      SplitPlain(s[1..], sep);
      assert s == [s[0]] + s[1..];
    }
  }

  lemma {:induction false} SplitAt(s: string, sep: char, t: string)
    requires Without(s, sep)
    ensures Split(s + [sep] + t, sep) == [s] + Split(t, sep)
  {
    var all := s + [sep] + t;
    if s == [] {
      assert all == [sep] + t && all[1..] == t;
    } else {
      SplitAt(s[1..], sep, t);
      assert all[1..] == s[1..] + [sep] + t;
      assert s == [s[0]] + s[1..];
    }
  }

  /** The pieces with the separators between them. */
  function Joined(pieces: seq<string>, sep: char): string
    requires pieces != []
  {
    if |pieces| == 1 then pieces[0] else pieces[0] + [sep] + Joined(pieces[1..], sep)
  }

  /** Splitting loses nothing, and no piece holds a separator. */
  lemma {:induction false} JoinedSplit(s: string, sep: char)
    ensures Joined(Split(s, sep), sep) == s
    ensures forall i :: 0 <= i < |Split(s, sep)| ==> Without(Split(s, sep)[i], sep)
  {
    if s != [] {
      JoinedSplit(s[1..], sep);
      var rest, all := Split(s[1..], sep), Split(s, sep);
      assert s == [s[0]] + s[1..];
      if s[0] == sep {
        assert all[1..] == rest;
      } else if |rest| > 1 {
        assert all[1..] == rest[1..];
      }
    }
  }

  /** The text before and after the last separator. */
  function RsplitOnce(s: string, sep: char): Option<(string, string)> {
    if s == [] then None
    else
      var last := |s| - 1;
      if s[last] == sep then Some((s[..last], []))
      else match RsplitOnce(s[..last], sep) case None => None case Some((a, b)) => Some((a, b + [s[last]]))
  }

  lemma {:induction false} RsplitJoined(a: string, sep: char, b: string)
    requires Without(b, sep)
    ensures RsplitOnce(a + [sep] + b, sep) == Some((a, b))
    decreases |b|
  {
    var all := a + [sep] + b;
    var last := |all| - 1;
    if b == [] {
      assert all == a + [sep] && all[..last] == a;
    } else {
      var init := b[..|b| - 1];
      RsplitJoined(a, sep, init);
      assert all[..last] == a + [sep] + init && all[last] == b[|b| - 1];
      assert init + [b[|b| - 1]] == b;
    }
  }

  // ---------------------------------------------------------------- decimal numbers

  predicate IsDigit(c: char) { '0' <= c <= '9' }

  predicate Digits(s: string) { s != [] && forall i :: 0 <= i < |s| ==> IsDigit(s[i]) }

  function DecimalValue(s: string): nat
    requires forall i :: 0 <= i < |s| ==> IsDigit(s[i])
  {
    if s == [] then 0
    else
      var last := s[|s| - 1];
      assert IsDigit(last);
      10 * DecimalValue(s[..|s| - 1]) + (last as int - '0' as int)
  }

  function DigitOf(n: nat): (c: char)
    requires n < 10
    ensures IsDigit(c) && c as int - '0' as int == n
  {
    ('0' as int + n) as char
  }

  function Decimal(n: nat): (s: string)
    ensures Digits(s)
  {
    if n < 10 then [DigitOf(n)] else Decimal(n / 10) + [DigitOf(n % 10)]
  }

  /** Printing a number and reading it back gives the number. */
  lemma {:induction false} DecimalRoundTrip(n: nat)
    ensures DecimalValue(Decimal(n)) == n
  {
    var s := Decimal(n);
    if n < 10 {
      assert s[..0] == [];
    } else {
      DecimalRoundTrip(n / 10);
      assert s[..|s| - 1] == Decimal(n / 10);
    }
  }
}
