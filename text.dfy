/**
 * The string operations of Python that the back end relies on, for ASCII text:
 * `str.title`, `str.replace` of one character, `str.split('/')`, `'/'.join`,
 * and the decimal rendering of an integer inside an f-string.
 */
module Text {

  predicate IsUpper(c: char) { 'A' <= c <= 'Z' }
  predicate IsLower(c: char) { 'a' <= c <= 'z' }
  /** ASCII letters are the only cased characters of the model. */
  predicate IsLetter(c: char) { IsUpper(c) || IsLower(c) }

  function ToUpper(c: char): (u: char)
    ensures IsLetter(c) ==> IsUpper(u) && ToLower(u) == ToLower(c)
    ensures !IsLetter(c) ==> u == c
    ensures IsUpper(c) ==> u == c
  {
    if IsLower(c) then (c as int - 32) as char else c
  }

  function ToLower(c: char): (l: char)
    ensures IsLetter(c) ==> IsLower(l)
    ensures !IsLetter(c) ==> l == c
    ensures IsLower(c) ==> l == c
  {
    if IsUpper(c) then (c as int + 32) as char else c
  }

  // ---------------------------------------------------------------------------
  // str.title()

  /** What `str.title()` makes of the character at `i`: a letter after a letter is lower-cased,
      any other letter upper-cased, and a non-letter kept. */
  function TitleChar(s: string, i: nat): char
    requires i < |s|
  {
    if !IsLetter(s[i]) then s[i]
    else if i > 0 && IsLetter(s[i - 1]) then ToLower(s[i])
    else ToUpper(s[i])
  }

  /** Python's `str.title()` on ASCII text. */
  function Title(s: string): (r: string)
    ensures |r| == |s|
  {
    seq(|s|, i requires 0 <= i < |s| => TitleChar(s, i))
  }

  /** What `title()` promises, character by character. */
  predicate IsTitleOf(r: string, s: string)
  {
    && |r| == |s|
    && (forall i :: 0 <= i < |s| ==> (IsLetter(r[i]) <==> IsLetter(s[i])))
    && (forall i :: 0 <= i < |s| && !IsLetter(s[i]) ==> r[i] == s[i])
    && (forall i :: 0 <= i < |s| && IsLetter(s[i]) ==> ToLower(r[i]) == ToLower(s[i]))
    && (forall i :: 0 <= i < |s| && IsLetter(s[i]) && (i == 0 || !IsLetter(s[i - 1])) ==> IsUpper(r[i]))
    && (forall i :: 0 < i < |s| && IsLetter(s[i]) && IsLetter(s[i - 1]) ==> IsLower(r[i]))
  }

  lemma TitleSpec(s: string)
    ensures IsTitleOf(Title(s), s)
  {
  }

  /** Title-casing a title-cased string changes nothing. */
  lemma TitleIdempotent(s: string)
    ensures Title(Title(s)) == Title(s)
  {
    var t := Title(s);
    forall i | 0 <= i < |s| ensures Title(t)[i] == t[i] {
      assert IsLetter(t[i]) <==> IsLetter(s[i]);
      if i > 0 { assert IsLetter(t[i - 1]) <==> IsLetter(s[i - 1]); }
    }
  }

  // ---------------------------------------------------------------------------
  // str.replace with single characters

  /** `s.replace(from, to)` for one-character arguments. */
  function Replace(s: string, from: char, to: char): (r: string)
    ensures |r| == |s|
  {
    seq(|s|, i requires 0 <= i < |s| => if s[i] == from then to else s[i])
  }

  /** `s.replace(c, '')`: every occurrence of `c` removed, everything else kept in order. */
  function Remove(s: string, c: char): (r: string)
    ensures c !in r
    ensures forall x :: x != c ==> (x in r <==> x in s)
    ensures |r| <= |s|
    ensures c !in s ==> r == s
  {
    if s == [] then []
    else if s[0] == c then Remove(s[1..], c)
    else [s[0]] + Remove(s[1..], c)
  }

  /** Every character other than `c` is kept as often as it occurs. */
  lemma {:induction false} RemoveMultiset(s: string, c: char)
    ensures multiset(Remove(s, c)) == multiset(s)[c := 0]
    decreases |s|
  {
    if s != [] {
      assert s == [s[0]] + s[1..];
      RemoveMultiset(s[1..], c);
    }
  }

  /**
   * Removal works piecewise, so the kept characters stay in their order: with the one-character
   * cases this determines `Remove` on every string.
   */
  lemma {:induction false} RemoveAppend(a: string, b: string, c: char)
    ensures Remove(a + b, c) == Remove(a, c) + Remove(b, c)
    decreases |a|
  {
    if a == [] {
      assert a + b == b;
    } else {
      assert (a + b)[0] == a[0] && (a + b)[1..] == a[1..] + b;
      RemoveAppend(a[1..], b, c);
    }
  }

  /** Removing from a one-character string keeps it exactly when it is not `c`. */
  lemma RemoveOne(x: char, c: char)
    ensures Remove([x], c) == if x == c then [] else [x]
  {
    assert [x][1..] == [];
  }

  /** The default page name derived from a slug: `slug.replace('-', ' ').title()`. */
  function SlugToName(slug: string): (name: string)
    ensures |name| == |slug|
    ensures '-' !in name
    ensures IsTitleOf(name, Replace(slug, '-', ' '))
  {
    var spaced := Replace(slug, '-', ' ');
    TitleSpec(spaced);
    var name := Title(spaced);
    assert '-' !in name by {
      forall i | 0 <= i < |name| ensures name[i] != '-' {
        if !IsLetter(spaced[i]) { assert name[i] == spaced[i]; } else { assert IsLetter(name[i]); }
      }
    }
    name
  }

  // ---------------------------------------------------------------------------
  // '/'.split and '/'.join

  /** Python's `s.split('/')`: the (possibly empty) pieces between the slashes, at least one. */
  function Split(s: string): (r: seq<string>)
    ensures |r| >= 1
    ensures forall i :: 0 <= i < |r| ==> '/' !in r[i]
    decreases |s|
  {
    if s == [] then [[]]
    else if s[0] == '/' then [[]] + Split(s[1..])
    else
      var t := Split(s[1..]);
      [[s[0]] + t[0]] + t[1..]
  }

  /** Python's `'/'.join(xs)`. */
  function Join(xs: seq<string>): string
  {
    if |xs| == 0 then []
    else if |xs| == 1 then xs[0]
    else xs[0] + "/" + Join(xs[1..])
  }

  predicate NoSlash(xs: seq<string>)
  {
    forall i :: 0 <= i < |xs| ==> '/' !in xs[i]
  }

  /** Joining the pieces of a split gives the string back. */
  lemma {:induction false} JoinSplit(s: string)
    ensures Join(Split(s)) == s
    decreases |s|
  {
    if s != [] {
      JoinSplit(s[1..]);
      if s[0] == '/' {
        assert Split(s) == [[]] + Split(s[1..]);
      } else {
        var t := Split(s[1..]);
        var r := [[s[0]] + t[0]] + t[1..];
        assert Split(s) == r;
        if |t| == 1 {
          assert Join(r) == [s[0]] + t[0];
        } else {
          assert r[1..] == t[1..];
          assert Join(r) == ([s[0]] + t[0]) + "/" + Join(t[1..]);
          assert Join(t) == t[0] + "/" + Join(t[1..]);
        }
      }
    }
  }

  /** Splitting a string that starts with slash-free text `a`. */
  lemma {:induction false} SplitPrefix(a: string, rest: string)
    requires '/' !in a
    ensures Split(a + rest) == [a + Split(rest)[0]] + Split(rest)[1..]
    decreases |a|
  {
    if a != [] {
      var t := Split(rest);
      var u := Split(a[1..] + rest);
      SplitPrefix(a[1..], rest);
      assert u[0] == a[1..] + t[0] && u[1..] == t[1..];
      assert (a + rest)[0] == a[0] && (a + rest)[1..] == a[1..] + rest;
      assert Split(a + rest) == [[a[0]] + u[0]] + u[1..];
      assert [a[0]] + (a[1..] + t[0]) == a + t[0];
    } else {
      var t := Split(rest);
      assert a + rest == rest;
      assert a + t[0] == t[0];
      assert [t[0]] + t[1..] == t;
    }
  }

  /** Splitting a join of slash-free pieces gives the pieces back. */
  lemma {:induction false} SplitJoin(xs: seq<string>)
    requires |xs| >= 1 && NoSlash(xs)
    ensures Split(Join(xs)) == xs
    decreases |xs|
  {
    if |xs| == 1 {
      SplitPrefix(xs[0], []);
      assert xs[0] + [] == xs[0];
    } else {
      var rest := Join(xs[1..]);
      SplitJoin(xs[1..]);
      SplitPrefix(xs[0], "/" + rest);
      assert ("/" + rest)[1..] == rest;
      assert Split("/" + rest) == [[]] + Split(rest);
      assert xs[0] + [] == xs[0];
      assert Join(xs) == xs[0] + ("/" + rest);
    }
  }

  /** Re-joining all pieces but the first gives a strictly shorter string. */
  lemma SplitTailShorter(s: string)
    requires s != []
    ensures |Join(Split(s)[1..])| < |s|
  {
    var p := Split(s);
    JoinSplit(s);
    if |p| > 1 {
      assert Join(p) == p[0] + "/" + Join(p[1..]);
    }
  }

  // ---------------------------------------------------------------------------
  // Decimal numbers, as an f-string renders an int

  function Digit(d: nat): (c: char)
    requires d < 10
    ensures '0' <= c <= '9'
  {
    ('0' as int + d) as char
  }

  predicate IsDigits(s: string)
  {
    forall i :: 0 <= i < |s| ==> '0' <= s[i] <= '9'
  }

  /** The decimal representation of `n`, without leading zeros. */
  function NatToString(n: nat): (s: string)
    ensures |s| >= 1 && IsDigits(s)
    ensures n >= 10 ==> |s| >= 2
  {
    if n < 10 then [Digit(n)] else NatToString(n / 10) + [Digit(n % 10)]
  }

  /** `f'{i}'` for a Python int. */
  function IntToString(i: int): (s: string)
    ensures |s| >= 1
  {
    if i < 0 then "-" + NatToString(-i) else NatToString(i)
  }

  /** The value of a string of decimal digits. */
  function ParseDigits(s: string): nat
    requires IsDigits(s)
  {
    if s == [] then 0 else 10 * ParseDigits(s[..|s| - 1]) + (s[|s| - 1] as int - '0' as int)
  }

  lemma {:induction false} ParseNatToString(n: nat)
    ensures ParseDigits(NatToString(n)) == n
  {
    if n >= 10 {
      ParseNatToString(n / 10);
      var s := NatToString(n);
      assert s[..|s| - 1] == NatToString(n / 10);
    }
  }

  /** Distinct numbers are rendered differently. */
  lemma NatToStringInjective(a: nat, b: nat)
    requires NatToString(a) == NatToString(b)
    ensures a == b
  {
    ParseNatToString(a);
    ParseNatToString(b);
  }

  /** The value of what `IntToString` renders: an optional minus sign and decimal digits. */
  function ParseInt(s: string): int
    requires |s| >= 1 && (if s[0] == '-' then IsDigits(s[1..]) else IsDigits(s))
  {
    if s[0] == '-' then 0 - ParseDigits(s[1..]) as int else ParseDigits(s)
  }

  lemma ParseIntToString(i: int)
    ensures var s := IntToString(i);
      && (if s[0] == '-' then IsDigits(s[1..]) else IsDigits(s))
      && ParseInt(s) == i
  {
    if i < 0 {
      assert IntToString(i)[1..] == NatToString(-i);
      ParseNatToString(-i);
    } else {
      ParseNatToString(i);
    }
  }

  /** Distinct ints are rendered differently. */
  lemma IntToStringInjective(a: int, b: int)
    requires IntToString(a) == IntToString(b)
    ensures a == b
  {
    ParseIntToString(a);
    ParseIntToString(b);
  }
}
