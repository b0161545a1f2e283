/** The order interface names are listed in: text as text, runs of digits as numbers. */
module NaturalOrder {
  import opened Text

  datatype Ordering = Less | Equal | Greater

  function Flip(o: Ordering): Ordering {
    match o
    case Less => Greater
    case Equal => Equal
    case Greater => Less
  }

  function CompareInts(a: int, b: int): Ordering {
    if a < b then Less else if a == b then Equal else Greater
  }

  // ----- the order that is meant -----------------------------------------

  /** A name is a list of characters and numbers of any size. */
  datatype Token = Char(c: char) | Number(value: nat)

  function DigitRun(s: string): (n: nat)
    ensures n <= |s| && (forall k :: 0 <= k < n ==> IsAsciiDigit(s[k])) && (n < |s| ==> !IsAsciiDigit(s[n]))
  {
    if s == [] || !IsAsciiDigit(s[0]) then 0 else 1 + DigitRun(s[1..])
  }

  function DigitOf(c: char): nat
    requires IsAsciiDigit(c)
  {
    c as nat - '0' as nat
  }

  predicate AllDigits(d: string) {
    forall k :: 0 <= k < |d| ==> IsAsciiDigit(d[k])
  }

  /** What a run of digits is worth. */
  function Value(d: string): nat
    requires AllDigits(d)
  {
    if d == [] then 0 else Value(d[..|d| - 1]) * 10 + DigitOf(d[|d| - 1])
  }

  function Tokens(s: string): seq<Token>
    decreases |s|
  {
    if s == [] then []
    else if IsAsciiDigit(s[0]) then [Number(Value(s[..DigitRun(s)]))] + Tokens(s[DigitRun(s)..])
    else [Char(s[0])] + Tokens(s[1..])
  }

  /** Where a token stands: numbers where the digits are among characters. */
  function Place(t: Token): int {
    match t
    case Char(c) => c as int
    case Number(_) => '0' as int
  }

  function CompareToken(t: Token, u: Token): Ordering {
    if t.Number? && u.Number? then CompareInts(t.value, u.value) else CompareInts(Place(t), Place(u))
  }

  /** Token by token, the shorter first. */
  function CompareTokens(ts: seq<Token>, us: seq<Token>): Ordering {
    if ts == [] && us == [] then Equal
    else if ts == [] then Less
    else if us == [] then Greater
    else if CompareToken(ts[0], us[0]) != Equal then CompareToken(ts[0], us[0])
    else CompareTokens(ts[1..], us[1..])
  }

  function Compare(a: string, b: string): Ordering {
    CompareTokens(Tokens(a), Tokens(b))
  }

  // ----- it is a total preorder ------------------------------------------

  predicate Plain(t: Token) {
    t.Char? ==> !IsAsciiDigit(t.c)
  }

  lemma {:induction false} TokensPlain(s: string)
    ensures forall i :: 0 <= i < |Tokens(s)| ==> Plain(Tokens(s)[i])
    decreases |s|
  {
    if s != [] { TokensPlain(if IsAsciiDigit(s[0]) then s[DigitRun(s)..] else s[1..]); }
  }

  lemma {:induction false} TokensSwap(ts: seq<Token>, us: seq<Token>)
    ensures CompareTokens(us, ts) == Flip(CompareTokens(ts, us))
  {
    if ts != [] && us != [] { TokensSwap(ts[1..], us[1..]); }
  }

  lemma {:induction false} TokensEqual(ts: seq<Token>, us: seq<Token>)
    requires forall i :: 0 <= i < |ts| ==> Plain(ts[i])
    requires forall i :: 0 <= i < |us| ==> Plain(us[i])
    ensures CompareTokens(ts, us) == Equal <==> ts == us
  {
    if ts != [] && us != [] {
      TokensEqual(ts[1..], us[1..]);
      assert ts == [ts[0]] + ts[1..] && us == [us[0]] + us[1..];
    }
  }

  lemma OneTransitive(t: Token, u: Token, v: Token)
    requires Plain(t) && Plain(u) && Plain(v)
    requires CompareToken(t, u) != Greater && CompareToken(u, v) != Greater
    ensures CompareToken(t, v) != Greater
    ensures CompareToken(t, v) == Equal ==> CompareToken(t, u) == Equal && CompareToken(u, v) == Equal
  {
  }

  lemma {:induction false} TokensTransitive(ts: seq<Token>, us: seq<Token>, vs: seq<Token>)
    requires forall i :: 0 <= i < |ts| ==> Plain(ts[i])
    requires forall i :: 0 <= i < |us| ==> Plain(us[i])
    requires forall i :: 0 <= i < |vs| ==> Plain(vs[i])
    requires CompareTokens(ts, us) != Greater && CompareTokens(us, vs) != Greater
    ensures CompareTokens(ts, vs) != Greater
  {
    hide CompareToken, Plain;
    if ts != [] && us != [] && vs != [] {
      OneTransitive(ts[0], us[0], vs[0]);
      if CompareToken(ts[0], vs[0]) == Equal { TokensTransitive(ts[1..], us[1..], vs[1..]); }
    }
  }

  /** Any two names compare, swapping them swaps the answer, and the order is transitive. */
  lemma TotalPreorder(a: string, b: string, c: string)
    ensures Compare(a, a) == Equal
    ensures Compare(b, a) == Flip(Compare(a, b))
    ensures Compare(a, b) != Greater && Compare(b, c) != Greater ==> Compare(a, c) != Greater
  {
    hide Plain, CompareTokens, Tokens;
    TokensPlain(a);
    TokensPlain(b);
    TokensPlain(c);
    TokensEqual(Tokens(a), Tokens(a));
    TokensSwap(Tokens(a), Tokens(b));
    if Compare(a, b) != Greater && Compare(b, c) != Greater { TokensTransitive(Tokens(a), Tokens(b), Tokens(c)); }
  }

  // ----- digit strings compare as numbers --------------------------------

  function Power(n: nat): nat {
    if n == 0 then 1 else 10 * Power(n - 1)
  }

  /** No leading zeroes, unless it is all there is. */
  predicate Canonical(d: string) {
    AllDigits(d) && d != [] && (|d| > 1 ==> d[0] != '0')
  }

  lemma {:induction false} ValueBounds(d: string)
    requires AllDigits(d)
    ensures Value(d) < Power(|d|)
    ensures d != [] && d[0] != '0' ==> Power(|d| - 1) <= Value(d)
  {
    if d != [] { ValueBounds(d[..|d| - 1]); }
  }

  lemma {:induction false} PowerGrows(m: nat, n: nat)
    requires m <= n
    ensures Power(m) <= Power(n)
    decreases n - m
  {
    if m < n { PowerGrows(m + 1, n); }
  }

  /** `String::cmp`: by characters, the shorter first. */
  function CompareText(a: string, b: string): Ordering {
    if a == [] && b == [] then Equal
    else if a == [] then Less
    else if b == [] then Greater
    else if a[0] != b[0] then (if a[0] < b[0] then Less else Greater)
    else CompareText(a[1..], b[1..])
  }

  lemma {:induction false} ValueSplits(d: string)
    requires AllDigits(d) && d != []
    ensures AllDigits(d[1..])
    ensures Value(d) == DigitOf(d[0]) * Power(|d| - 1) + Value(d[1..])
    decreases |d|
  {
    if |d| == 1 {
      assert d[..0] == [];
    } else {
      var front := d[..|d| - 1];
      ValueSplits(front);
      assert d[1..][..|d| - 2] == front[1..];
    }
  }

  lemma {:induction false} Scaled(a: nat, b: nat, p: nat)
    requires a < b
    ensures a * p + p <= b * p
  {
    assert b * p == (b - 1) * p + p;
    if a < b - 1 { Scaled(a, b - 1, p); }
  }

  /** Of two digit strings of one length, text order is numeric order. */
  lemma {:induction false} SameLength(x: string, y: string)
    requires AllDigits(x) && AllDigits(y) && |x| == |y|
    ensures CompareText(x, y) == CompareInts(Value(x), Value(y))
  {
    if x != [] {
      ValueSplits(x);
      ValueSplits(y);
      ValueBounds(x[1..]);
      ValueBounds(y[1..]);
      SameLength(x[1..], y[1..]);
      if DigitOf(x[0]) < DigitOf(y[0]) {
        Scaled(DigitOf(x[0]), DigitOf(y[0]), Power(|x| - 1));
      } else if DigitOf(y[0]) < DigitOf(x[0]) {
        Scaled(DigitOf(y[0]), DigitOf(x[0]), Power(|x| - 1));
      }
    }
  }

  /** Length first, then text: the order of the numbers. */
  function CompareDigits(x: string, y: string): Ordering {
    if |x| != |y| then CompareInts(|x|, |y|) else CompareText(x, y)
  }

  lemma Shorter(x: string, y: string)
    requires Canonical(x) && Canonical(y) && |x| < |y|
    ensures Value(x) < Value(y)
  {
    ValueBounds(x);
    ValueBounds(y);
    PowerGrows(|x|, |y| - 1);
  }

  lemma DigitsAreNumbers(x: string, y: string)
    requires Canonical(x) && Canonical(y)
    ensures CompareDigits(x, y) == CompareInts(Value(x), Value(y))
  {
    hide Value;
    if |x| < |y| { Shorter(x, y); } else if |y| < |x| { Shorter(y, x); } else { SameLength(x, y); }
  }

  // ----- leading zeroes --------------------------------------------------

  /** What `take_digits` returns for a run. */
  function Trimmed(d: string): string {
    var t := TrimStartMatches(d, '0');
    if t == [] then "0" else t
  }

  lemma {:induction false} TrimmedIsCanonical(d: string)
    requires AllDigits(d) && d != []
    ensures Canonical(Trimmed(d)) && Value(Trimmed(d)) == Value(d)
  {
    if d[0] == '0' {
      ValueSplits(d);
      if |d| == 1 {
        assert TrimStartMatches(d[1..], '0') == [];
        assert Trimmed(d) == "0" && d == "0";
      } else {
        TrimmedIsCanonical(d[1..]);
      }
    }
  }

  /** A name with the leading zeroes of every number dropped. */
  function Unpadded(s: string): string
    decreases |s|
  {
    if s == [] then []
    else if IsAsciiDigit(s[0]) then Trimmed(s[..DigitRun(s)]) + Unpadded(s[DigitRun(s)..])
    else [s[0]] + Unpadded(s[1..])
  }

  lemma {:induction false} RunAll(t: string, u: string)
    requires AllDigits(t) && (u != [] ==> !IsAsciiDigit(u[0]))
    ensures DigitRun(t + u) == |t|
  {
    if t == [] {
      assert t + u == u;
    } else {
      assert (t + u)[1..] == t[1..] + u;
      RunAll(t[1..], u);
    }
  }

  lemma TokensOfRun(t: string, u: string)
    requires AllDigits(t) && t != [] && (u != [] ==> !IsAsciiDigit(u[0]))
    ensures Tokens(t + u) == [Number(Value(t))] + Tokens(u)
  {
    RunAll(t, u);
    assert (t + u)[..|t|] == t && (t + u)[|t|..] == u;
  }

  lemma UnpaddedStart(s: string)
    requires s != [] && !IsAsciiDigit(s[0])
    ensures Unpadded(s) != [] && Unpadded(s)[0] == s[0]
  {
  }

  lemma {:induction false} UnpaddedTokens(s: string)
    ensures Tokens(Unpadded(s)) == Tokens(s)
    decreases |s|
  {
    hide Value, Trimmed;
    if s != [] {
      if IsAsciiDigit(s[0]) {
        var n := DigitRun(s);
        var run, rest := s[..n], s[n..];
        UnpaddedTokens(rest);
        TrimmedIsCanonical(run);
        if rest != [] { UnpaddedStart(rest); } else { assert Unpadded(rest) == []; }
        TokensOfRun(Trimmed(run), Unpadded(rest));
      } else {
        UnpaddedTokens(s[1..]);
        assert Unpadded(s)[1..] == Unpadded(s[1..]);
      }
    }
  }

  lemma {:induction false} TextEqual(x: string, y: string)
    ensures CompareText(x, y) == Equal <==> x == y
  {
    if x != [] && y != [] {
      TextEqual(x[1..], y[1..]);
      assert x == [x[0]] + x[1..] && y == [y[0]] + y[1..];
    }
  }

  lemma SameNumber(x: string, y: string)
    requires AllDigits(x) && AllDigits(y) && x != [] && y != [] && Value(x) == Value(y)
    ensures Trimmed(x) == Trimmed(y)
  {
    hide Value, Trimmed;
    TrimmedIsCanonical(x);
    TrimmedIsCanonical(y);
    DigitsAreNumbers(Trimmed(x), Trimmed(y));
    TextEqual(Trimmed(x), Trimmed(y));
  }

  lemma {:induction false} SameTokens(a: string, b: string)
    requires Tokens(a) == Tokens(b)
    ensures Unpadded(a) == Unpadded(b)
    decreases |a|
  {
    hide Value, Trimmed;
    if a != [] {
      assert Tokens(a) != [] && b != [];
      var ta, tb := Tokens(a), Tokens(b);
      assert ta[0] == tb[0];
      if IsAsciiDigit(a[0]) {
        var m, n := DigitRun(a), DigitRun(b);
        assert ta[1..] == Tokens(a[m..]) && tb[1..] == Tokens(b[n..]);
        SameNumber(a[..m], b[..n]);
        SameTokens(a[m..], b[n..]);
      } else {
        assert ta[1..] == Tokens(a[1..]) && tb[1..] == Tokens(b[1..]);
        SameTokens(a[1..], b[1..]);
      }
    }
  }

  /** Two names tie exactly when they differ only in leading zeroes. */
  lemma EqualIffUnpadded(a: string, b: string)
    ensures Compare(a, b) == Equal <==> Unpadded(a) == Unpadded(b)
  {
    hide Tokens, CompareTokens, Plain, Unpadded;
    TokensPlain(a);
    TokensPlain(b);
    TokensEqual(Tokens(a), Tokens(b));
    UnpaddedTokens(a);
    UnpaddedTokens(b);
    if Tokens(a) == Tokens(b) { SameTokens(a, b); }
  }

  // ----- the comparison as it is written ---------------------------------

  // ----- the way a person counts -----------------------------------------

  /** Where one text can be cut from the next without cutting a number in two. */
  predicate Parts(p: string, q: string) {
    p == "" || q == "" || !IsAsciiDigit(p[|p| - 1]) || !IsAsciiDigit(q[0])
  }

  lemma {:induction false} TokensConcat(p: string, q: string)
    requires Parts(p, q)
    ensures Tokens(p + q) == Tokens(p) + Tokens(q)
    decreases |p|
  {
    hide Tokens, Value, DigitRun;
    if p == [] {
      assert p + q == q;
      NoTokens();
    } else if IsAsciiDigit(p[0]) {
      var run, rest := p[..DigitRun(p)], p[DigitRun(p)..];
      RunTaken(p);
      assert p == run + rest;
      assert rest != [] ==> rest[|rest| - 1] == p[|p| - 1];
      assert rest == [] ==> p[|p| - 1] == run[|run| - 1];
      TokensConcat(rest, q);
      RunConcat(run, rest, q);
    } else {
      assert (p + q)[1..] == p[1..] + q;
      TokensConcat(p[1..], q);
      OneChar(p);
      OneChar(p + q);
    }
  }

  lemma RunConcat(run: string, rest: string, q: string)
    requires AllDigits(run) && run != "" && EndsNumber(rest) && EndsNumber(rest + q)
    requires Tokens(rest + q) == Tokens(rest) + Tokens(q)
    ensures Tokens(run + rest + q) == Tokens(run + rest) + Tokens(q)
  {
    hide Tokens, Value;
    assert run + rest + q == run + (rest + q);
    TokensOfRun(run, rest);
    TokensOfRun(run, rest + q);
  }

  lemma NoTokens()
    ensures Tokens([]) == []
  {
  }

  lemma OneChar(s: string)
    requires s != [] && !IsAsciiDigit(s[0])
    ensures Tokens(s) == [Char(s[0])] + Tokens(s[1..])
  {
  }

  lemma RunTaken(s: string)
    requires s != [] && IsAsciiDigit(s[0])
    ensures var n := DigitRun(s);
            0 < n <= |s| && AllDigits(s[..n]) && (s[n..] != [] ==> !IsAsciiDigit(s[n..][0]))
  {
  }

  lemma {:induction false} SameStart(ts: seq<Token>, us: seq<Token>, vs: seq<Token>)
    ensures CompareTokens(ts + us, ts + vs) == CompareTokens(us, vs)
  {
    if ts == [] {
      assert ts + us == us && ts + vs == vs;
    } else {
      assert (ts + us)[1..] == ts[1..] + us && (ts + vs)[1..] == ts[1..] + vs;
      SameStart(ts[1..], us, vs);
    }
  }

  /** Two numbers as they are written, the first smaller. */
  predicate Below(x: string, y: string) {
    AllDigits(x) && AllDigits(y) && x != "" && y != "" && Value(x) < Value(y)
  }

  predicate EndsNumber(s: string) {
    s == "" || !IsAsciiDigit(s[0])
  }

  /** After the same beginning: the smaller number comes first, however it is written and
      whatever follows; so does the smaller character; and a name comes before any longer
      one it begins. */
  lemma CountsLikeAPerson(p: string, x: string, y: string, c: char, d: char, s: string, t: string)
    requires p == "" || !IsAsciiDigit(p[|p| - 1])
    ensures Below(x, y) && EndsNumber(s) && EndsNumber(t) ==> Compare(p + x + s, p + y + t) == Less
    ensures c < d && !IsAsciiDigit(c) && !IsAsciiDigit(d) ==> Compare(p + ([c] + s), p + ([d] + t)) == Less
    ensures s != "" ==> Compare(p, p + s) == Less
  {
    hide Tokens, Compare;
    if Below(x, y) && EndsNumber(s) && EndsNumber(t) { SmallerFirst(p, x, y, s, t); }
    if c < d && !IsAsciiDigit(c) && !IsAsciiDigit(d) { LetterFirst(p, c, d, s, t); }
    if s != "" { ShorterFirst(p, s); }
  }

  lemma SmallerFirst(p: string, x: string, y: string, s: string, t: string)
    requires p == "" || !IsAsciiDigit(p[|p| - 1])
    requires Below(x, y) && EndsNumber(s) && EndsNumber(t)
    ensures Compare(p + x + s, p + y + t) == Less
  {
    hide Tokens, DigitRun, Value;
    assert p + x + s == p + (x + s) && p + y + t == p + (y + t);
    TokensConcat(p, x + s);
    TokensConcat(p, y + t);
    TokensOfRun(x, s);
    TokensOfRun(y, t);
    SameStart(Tokens(p), Tokens(x + s), Tokens(y + t));
    TokensFirst(Number(Value(x)), Tokens(s), Number(Value(y)), Tokens(t));
  }

  lemma LetterFirst(p: string, c: char, d: char, s: string, t: string)
    requires (p == "" || !IsAsciiDigit(p[|p| - 1])) && c < d && !IsAsciiDigit(c) && !IsAsciiDigit(d)
    ensures Compare(p + ([c] + s), p + ([d] + t)) == Less
  {
    hide DigitRun;
    TokensConcat(p, [c] + s);
    TokensConcat(p, [d] + t);
    assert ([c] + s)[1..] == s && ([d] + t)[1..] == t;
    assert Tokens([c] + s) == [Char(c)] + Tokens(s) && Tokens([d] + t) == [Char(d)] + Tokens(t);
    hide Tokens;
    SameStart(Tokens(p), Tokens([c] + s), Tokens([d] + t));
    TokensFirst(Char(c), Tokens(s), Char(d), Tokens(t));
  }

  lemma ShorterFirst(p: string, s: string)
    requires (p == "" || !IsAsciiDigit(p[|p| - 1])) && s != ""
    ensures Compare(p, p + s) == Less
  {
    TokensConcat(p, s);
    assert Tokens(s) != [];
    hide Tokens;
    assert Tokens(p) + [] == Tokens(p);
    SameStart(Tokens(p), [], Tokens(s));
  }


  method TakeDigits(s: string, i: nat) returns (digits: string, j: nat)
    requires i <= |s|
    ensures j == i + DigitRun(s[i..]) && digits == Trimmed(s[i..j])
  {
    j := i;
    while j < |s| && IsAsciiDigit(s[j])
      invariant i <= j <= |s|
      invariant j - i + DigitRun(s[j..]) == DigitRun(s[i..])
    {
      assert s[j..][1..] == s[j + 1..];
      j := j + 1;
    }
    digits := Trimmed(s[i..j]);
  }

  lemma RunFrom(s: string, i: nat)
    requires i < |s| && IsAsciiDigit(s[i])
    ensures var j := i + DigitRun(s[i..]);
            && i < j <= |s| && AllDigits(s[i..j]) && Tokens(s[i..]) == [Number(Value(s[i..j]))] + Tokens(s[j..])
  {
    var rest := s[i..];
    var n := DigitRun(rest);
    assert rest[..n] == s[i..i + n] && rest[n..] == s[i + n..];
  }

  lemma CharFrom(s: string, i: nat)
    requires i < |s| && !IsAsciiDigit(s[i])
    ensures Tokens(s[i..]) == [Char(s[i])] + Tokens(s[i + 1..])
  {
    assert s[i..][1..] == s[i + 1..];
  }

  lemma TokensFirst(t: Token, ts: seq<Token>, u: Token, us: seq<Token>)
    ensures CompareTokens([t] + ts, [u] + us) == if CompareToken(t, u) != Equal then CompareToken(t, u) else CompareTokens(ts, us)
  {
    assert ([t] + ts)[1..] == ts && ([u] + us)[1..] == us;
  }

  /** One pass over both names, a run of digits at a time. */
  method NaturalCompare(a: string, b: string) returns (r: Ordering)
    ensures r == Compare(a, b)
  {
    hide CompareTokens, Tokens, Value, Trimmed, CompareDigits, Canonical;
    var i, j := 0, 0;
    assert a[0..] == a && b[0..] == b;
    while i < |a| && j < |b|
      invariant 0 <= i <= |a| && 0 <= j <= |b|
      invariant CompareTokens(Tokens(a[i..]), Tokens(b[j..])) == Compare(a, b)
      decreases |a| - i + |b| - j
    {
      if IsAsciiDigit(a[i]) && IsAsciiDigit(b[j]) {
        RunFrom(a, i);
        RunFrom(b, j);
        var x, i' := TakeDigits(a, i);
        var y, j' := TakeDigits(b, j);
        TrimmedIsCanonical(a[i..i']);
        TrimmedIsCanonical(b[j..j']);
        DigitsAreNumbers(x, y);
        TokensFirst(Number(Value(a[i..i'])), Tokens(a[i'..]), Number(Value(b[j..j'])), Tokens(b[j'..]));
        var ordering := CompareDigits(x, y);
        if ordering != Equal { return ordering; }
        i, j := i', j';
      } else {
        HeadsCompare(a, b, i, j);
        if a[i] != b[j] { return if a[i] < b[j] then Less else Greater; }
        i, j := i + 1, j + 1;
      }
    }
    Ends(a[i..], b[j..]);
    r := if i == |a| && j == |b| then Equal else if i == |a| then Less else Greater;
  }

  lemma HeadsCompare(a: string, b: string, i: nat, j: nat)
    requires i < |a| && j < |b| && !(IsAsciiDigit(a[i]) && IsAsciiDigit(b[j]))
    ensures CompareTokens(Tokens(a[i..]), Tokens(b[j..])) ==
            if a[i] != b[j] then (if a[i] < b[j] then Less else Greater) else CompareTokens(Tokens(a[i + 1..]), Tokens(b[j + 1..]))
  {
    hide CompareTokens, Tokens, Value;
    if IsAsciiDigit(a[i]) {
      RunFrom(a, i);
      CharFrom(b, j);
      var k := i + DigitRun(a[i..]);
      TokensFirst(Number(Value(a[i..k])), Tokens(a[k..]), Char(b[j]), Tokens(b[j + 1..]));
    } else if IsAsciiDigit(b[j]) {
      CharFrom(a, i);
      RunFrom(b, j);
      var k := j + DigitRun(b[j..]);
      TokensFirst(Char(a[i]), Tokens(a[i + 1..]), Number(Value(b[j..k])), Tokens(b[k..]));
    } else {
      CharFrom(a, i);
      CharFrom(b, j);
      TokensFirst(Char(a[i]), Tokens(a[i + 1..]), Char(b[j]), Tokens(b[j + 1..]));
    }
  }

  lemma Ends(a: string, b: string)
    requires a == [] || b == []
    ensures CompareTokens(Tokens(a), Tokens(b)) == if a == b then Equal else if a == [] then Less else Greater
  {
  }
}
