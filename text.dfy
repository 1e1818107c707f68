/** The part of JavaScript's string library that the resume parser and the
    client helpers rely on: trim, toLowerCase, includes, indexOf, split,
    join, Number.prototype.toString and the global parseInt.
    Strings are sequences of characters; lower-casing covers ASCII only. */
module Text {
  import opened Wrappers

  // ---------------------------------------------------------------- trim

  /** The WhiteSpace and LineTerminator code points of ECMAScript: the set
      that `String.prototype.trim` strips and that the class `\s` matches. */
  predicate IsSpace(c: char) {
    c == ' ' || c == '\t' || c == '\n' || c == '\r' || c == '\U{B}' || c == '\U{C}'
    || c == '\U{A0}' || c == '\U{1680}' || ('\U{2000}' <= c <= '\U{200A}')
    || c == '\U{2028}' || c == '\U{2029}' || c == '\U{202F}' || c == '\U{205F}'
    || c == '\U{3000}' || c == '\U{FEFF}'
  }

  predicate IsTrimmed(s: string) {
    s == [] || (!IsSpace(s[0]) && !IsSpace(s[|s| - 1]))
  }

  function TrimStart(s: string): (r: string)
    ensures |r| <= |s|
    decreases |s|
  {
    if |s| > 0 && IsSpace(s[0]) then TrimStart(s[1..]) else s
  }

  function TrimEnd(s: string): (r: string)
    ensures |r| <= |s|
    decreases |s|
  {
    if |s| > 0 && IsSpace(s[|s| - 1]) then TrimEnd(s[..|s| - 1]) else s
  }

  /** `String.prototype.trim` (its result is trimmed: `TrimIsTrimmed`). */
  function Trim(s: string): (r: string)
    ensures |r| <= |s|
  {
    TrimEnd(TrimStart(s))
  }

  /** `TrimStart` drops a prefix and stops at a non-blank. */
  lemma {:induction false} TrimStartSuffix(s: string)
    ensures TrimStart(s) == s[|s| - |TrimStart(s)|..]
    ensures TrimStart(s) == [] || !IsSpace(TrimStart(s)[0])
    decreases |s|
  {
    if |s| > 0 && IsSpace(s[0]) {
      TrimStartSuffix(s[1..]);
    }
  }

  /** `TrimEnd` drops a suffix and stops at a non-blank. */
  lemma {:induction false} TrimEndPrefix(s: string)
    ensures TrimEnd(s) == s[..|TrimEnd(s)|]
    ensures TrimEnd(s) == [] || !IsSpace(TrimEnd(s)[|TrimEnd(s)| - 1])
    decreases |s|
  {
    if |s| > 0 && IsSpace(s[|s| - 1]) {
      TrimEndPrefix(s[..|s| - 1]);
    }
  }

  /** `trim` leaves no blank at either end. */
  lemma TrimIsTrimmed(s: string)
    ensures IsTrimmed(Trim(s))
  {
    var t := TrimStart(s);
    TrimStartSuffix(s);
    TrimEndPrefix(t);
    if Trim(s) != [] {
      assert Trim(s)[0] == t[0];
    }
  }

  lemma {:induction false} TrimStartDropsBlanks(s: string)
    ensures forall k :: 0 <= k < |s| - |TrimStart(s)| ==> IsSpace(s[k])
    decreases |s|
  {
    if |s| > 0 && IsSpace(s[0]) {
      TrimStartDropsBlanks(s[1..]);
    }
  }

  lemma {:induction false} TrimEndDropsBlanks(s: string)
    ensures forall k :: |TrimEnd(s)| <= k < |s| ==> IsSpace(s[k])
    decreases |s|
  {
    if |s| > 0 && IsSpace(s[|s| - 1]) {
      TrimEndDropsBlanks(s[..|s| - 1]);
    }
  }

  /** Trimming removes only white space, and leaves nothing exactly when
      there is nothing else. */
  lemma TrimEmpty(s: string)
    ensures Trim(s) == [] <==> forall k :: 0 <= k < |s| ==> IsSpace(s[k])
  {
    var t := TrimStart(s);
    TrimStartDropsBlanks(s);
    TrimEndDropsBlanks(t);
    TrimStartSuffix(s);
    TrimEndPrefix(t);
    if Trim(s) != [] {
      assert Trim(s)[0] == s[|s| - |t|];
    }
  }

  lemma TrimTrimmed(s: string)
    requires IsTrimmed(s)
    ensures Trim(s) == s
  {
  }

  /** Trimming a trimmed, non-empty string behind one leading blank gives it back. */
  lemma TrimAfterBlank(s: string)
    requires IsTrimmed(s) && s != []
    ensures Trim([' '] + s) == s
  {
    assert ([' '] + s)[1..] == s;
    assert TrimStart([' '] + s) == TrimStart(s) == s;
  }

  // ---------------------------------------------------------- lower case

  function LowerChar(c: char): char {
    if 'A' <= c <= 'Z' then (c as int + 32) as char else c
  }

  /** `String.prototype.toLowerCase`, restricted to ASCII letters. */
  function Lower(s: string): (r: string)
    ensures |r| == |s|
  {
    seq(|s|, k requires 0 <= k < |s| => LowerChar(s[k]))
  }

  // ------------------------------------------------------------- search

  /** `w` occurs in `s` at index `p`. */
  predicate OccursAt(s: string, w: string, p: nat) {
    p + |w| <= |s| && s[p..p + |w|] == w
  }

  predicate StartsWith(s: string, w: string) {
    OccursAt(s, w, 0)
  }

  /** `s.indexOf(w, p)`: the leftmost occurrence of `w` at or after `p`. */
  function IndexFrom(s: string, w: string, p: nat): (r: Option<nat>)
    ensures r.Some? ==> p <= r.value && OccursAt(s, w, r.value)
    decreases |s| - p
  {
    if p + |w| > |s| then None
    else if s[p..p + |w|] == w then Some(p)
    else IndexFrom(s, w, p + 1)
  }

  /** No occurrence lies between `p` and the one `IndexFrom` reports, and
      there is none at all when it reports none. */
  lemma {:induction false} IndexFromLeftmost(s: string, w: string, p: nat)
    ensures IndexFrom(s, w, p).Some? ==> forall k :: p <= k < IndexFrom(s, w, p).value ==> !OccursAt(s, w, k)
    ensures IndexFrom(s, w, p).None? ==> forall k :: p <= k ==> !OccursAt(s, w, k)
    decreases |s| - p
  {
    if p + |w| <= |s| && s[p..p + |w|] != w {
      IndexFromLeftmost(s, w, p + 1);
    }
  }

  /** `s.includes(w)`. */
  predicate Contains(s: string, w: string) {
    IndexFrom(s, w, 0).Some?
  }

  /** `ws.some(w => s.includes(w))`. */
  predicate ContainsAny(s: string, ws: seq<string>)
    decreases |ws|
  {
    |ws| > 0 && (Contains(s, ws[0]) || ContainsAny(s, ws[1..]))
  }

  /** No item of `xs` appears twice. */
  predicate NoDuplicates<T(==)>(xs: seq<T>) {
    forall a, b :: 0 <= a < b < |xs| ==> xs[a] != xs[b]
  }

  // ------------------------------------------------------- split / join

  /** `s.split(d)` for a one-character separator: never empty (the pieces
      are free of `d`: `SplitPiecesFree`). */
  function Split(s: string, d: char): (r: seq<string>)
    ensures |r| >= 1
    decreases |s|
  {
    if |s| == 0 then [""]
    else if s[0] == d then [""] + Split(s[1..], d)
    else
      var t := Split(s[1..], d);
      [[s[0]] + t[0]] + t[1..]
  }

  /** No piece of a split contains the separator. */
  lemma {:induction false} SplitPiecesFree(s: string, d: char)
    ensures forall k :: 0 <= k < |Split(s, d)| ==> d !in Split(s, d)[k]
    decreases |s|
  {
    if |s| > 0 {
      SplitPiecesFree(s[1..], d);
    }
  }

  /** Every character of a piece of a split comes from the string split. */
  lemma {:induction false} SplitPiecesWithin(s: string, d: char)
    ensures forall k, c :: 0 <= k < |Split(s, d)| && c in Split(s, d)[k] ==> c in s
    decreases |s|
  {
    if |s| > 0 {
      SplitPiecesWithin(s[1..], d);
      assert forall c :: c in s[1..] ==> c in s;
    }
  }

  /** `xs.join(sep)`. */
  function Join(xs: seq<string>, sep: string): string
    decreases |xs|
  {
    if |xs| == 0 then ""
    else if |xs| == 1 then xs[0]
    else xs[0] + sep + Join(xs[1..], sep)
  }

  /** A string free of the separator splits into itself. */
  lemma {:induction false} SplitFree(s: string, d: char)
    requires d !in s
    ensures Split(s, d) == [s]
    decreases |s|
  {
    if |s| > 0 {
      SplitFree(s[1..], d);
      assert [s[0]] + s[1..] == s;
    }
  }

  /** A separator-free prefix is glued onto the first piece. */
  lemma {:induction false} SplitPrefix(a: string, b: string, d: char)
    requires d !in a
    ensures Split(a + b, d) == [a + Split(b, d)[0]] + Split(b, d)[1..]
    decreases |a|
  {
    if |a| > 0 {
      assert (a + b)[0] == a[0];
      assert (a + b)[1..] == a[1..] + b;
      SplitPrefix(a[1..], b, d);
      assert [a[0]] + (a[1..] + Split(b, d)[0]) == a + Split(b, d)[0];
    } else {
      assert a + b == b;
      var t := Split(b, d);
      assert a + t[0] == t[0];
      assert t == [t[0]] + t[1..];
    }
  }

  /** Splitting a join on `d` followed by `pad` gives the items back, every
      item after the first still carrying the `pad`. */
  lemma {:induction false} SplitJoin(xs: seq<string>, d: char, pad: string)
    requires |xs| >= 1 && d !in pad
    requires forall k :: 0 <= k < |xs| ==> d !in xs[k]
    ensures Split(Join(xs, [d] + pad), d)
         == [xs[0]] + seq(|xs| - 1, k requires 0 <= k < |xs| - 1 => pad + xs[k + 1])
    decreases |xs|
  {
    var sep := [d] + pad;
    if |xs| == 1 {
      SplitFree(xs[0], d);
    } else {
      var rest := Join(xs[1..], sep);
      SplitJoin(xs[1..], d, pad);
      var tail := Split(rest, d);
      assert tail == [xs[1]] + seq(|xs| - 2, k requires 0 <= k < |xs| - 2 => pad + xs[k + 2]);
      SplitPrefix(pad, rest, d);
      var s2 := Split(pad + rest, d);
      assert s2 == [pad + xs[1]] + seq(|xs| - 2, k requires 0 <= k < |xs| - 2 => pad + xs[k + 2]);
      assert Join(xs, sep) == xs[0] + ([d] + (pad + rest));
      SplitPrefix(xs[0], [d] + (pad + rest), d);
      assert ([d] + (pad + rest))[1..] == pad + rest;
      assert Split([d] + (pad + rest), d) == [""] + s2;
      assert xs[0] + "" == xs[0];
    }
  }

  /** The pieces of a split join one by one. */
  lemma SplitJoinAt(xs: seq<string>, d: char, pad: string, k: nat)
    requires |xs| >= 1 && d !in pad
    requires forall j :: 0 <= j < |xs| ==> d !in xs[j]
    requires k < |xs|
    ensures |Split(Join(xs, [d] + pad), d)| == |xs|
    ensures Split(Join(xs, [d] + pad), d)[k] == if k == 0 then xs[0] else pad + xs[k]
  {
    SplitJoin(xs, d, pad);
  }

  /** `text.split('\n')`: the lines the resume parsers scan. */
  function Lines(text: string): seq<string> {
    Split(text, '\n')
  }

  function Min(a: int, b: int): int {
    if a <= b then a else b
  }

  // --------------------------------------------------------- first hit

  /** The end of the look-ahead window of `size` lines after line `i`. */
  function WindowEnd(ls: seq<string>, i: nat, size: nat): (r: nat)
    requires i < |ls|
    ensures i < r <= |ls| && r <= i + 1 + size
    ensures r < i + 1 + size ==> r == |ls|
  {
    Min(i + 1 + size, |ls|)
  }

  /** The first non-empty value of `f` over `ls[lo..hi]`, "" when there is
      none: a field filled by the first line of a look-ahead window that
      matches, which later matches never overwrite. */
  function FirstHit<T>(ls: seq<T>, lo: nat, hi: nat, f: T -> string): string
    requires lo <= hi <= |ls|
    decreases hi
  {
    if hi == lo then ""
    else
      var r := FirstHit(ls, lo, hi - 1, f);
      if r != "" then r else f(ls[hi - 1])
  }

  /** `FirstHit` is "" exactly when `f` gives "" on every line of the range,
      and otherwise it is `f` of a line before which `f` gave only "". */
  lemma {:induction false} FirstHitIsFirst<T>(ls: seq<T>, lo: nat, hi: nat, f: T -> string)
    requires lo <= hi <= |ls|
    ensures FirstHit(ls, lo, hi, f) == "" ==> forall k :: lo <= k < hi ==> f(ls[k]) == ""
    ensures (forall k :: lo <= k < hi ==> f(ls[k]) == "") ==> FirstHit(ls, lo, hi, f) == ""
    ensures FirstHit(ls, lo, hi, f) != "" ==>
              exists k :: lo <= k < hi && FirstHit(ls, lo, hi, f) == f(ls[k])
                          && forall j :: lo <= j < k ==> f(ls[j]) == ""
    decreases hi
  {
    if hi > lo {
      FirstHitIsFirst(ls, lo, hi - 1, f);
      var r := FirstHit(ls, lo, hi - 1, f);
      if r != "" {
        var k :| lo <= k < hi - 1 && r == f(ls[k]) && forall j :: lo <= j < k ==> f(ls[j]) == "";
        assert lo <= k < hi && FirstHit(ls, lo, hi, f) == f(ls[k]);
      } else if f(ls[hi - 1]) != "" {
        assert forall j :: lo <= j < hi - 1 ==> f(ls[j]) == "";
      }
    }
  }

  /** The index of the first line of `ls`, from `i` on, that `p` accepts. */
  function FindFrom(ls: seq<string>, i: nat, p: string -> bool): (r: Option<nat>)
    requires i <= |ls|
    ensures r.Some? ==> i <= r.value < |ls| && p(ls[r.value])
    decreases |ls| - i
  {
    if i == |ls| then None
    else if p(ls[i]) then Some(i)
    else FindFrom(ls, i + 1, p)
  }

  /** `FindFrom` fails exactly when no line from `i` on is accepted, and
      otherwise no line before the one it reports is. */
  lemma {:induction false} FindFromFirst(ls: seq<string>, i: nat, p: string -> bool)
    requires i <= |ls|
    ensures FindFrom(ls, i, p).None? ==> forall k :: i <= k < |ls| ==> !p(ls[k])
    ensures (forall k :: i <= k < |ls| ==> !p(ls[k])) ==> FindFrom(ls, i, p).None?
    ensures FindFrom(ls, i, p).Some? ==> forall m :: i <= m < FindFrom(ls, i, p).value ==> !p(ls[m])
    decreases |ls| - i
  {
    if i < |ls| && !p(ls[i]) {
      FindFromFirst(ls, i + 1, p);
    }
  }

  /** `f` of every line of `ls[lo..hi]` that `keep` accepts, in order:
      what a loop pushing onto a list collects. */
  function Harvest(ls: seq<string>, lo: nat, hi: nat, keep: string -> bool, f: string -> string): (r: seq<string>)
    requires lo <= hi <= |ls|
    ensures |r| <= hi - lo
    decreases hi
  {
    if hi == lo then []
    else
      var x := ls[hi - 1];
      Harvest(ls, lo, hi - 1, keep, f) + (if keep(x) then [f(x)] else [])
  }

  /** Every collected item is `f` of an accepted line, and nothing is
      collected exactly when no line is accepted. */
  lemma {:induction false} HarvestFrom(ls: seq<string>, lo: nat, hi: nat, keep: string -> bool, f: string -> string)
    requires lo <= hi <= |ls|
    ensures forall y :: y in Harvest(ls, lo, hi, keep, f) ==> exists k :: lo <= k < hi && keep(ls[k]) && y == f(ls[k])
    ensures Harvest(ls, lo, hi, keep, f) == [] ==> forall k :: lo <= k < hi ==> !keep(ls[k])
    ensures (forall k :: lo <= k < hi ==> !keep(ls[k])) ==> Harvest(ls, lo, hi, keep, f) == []
    decreases hi
  {
    if hi > lo {
      HarvestFrom(ls, lo, hi - 1, keep, f);
      forall y | y in Harvest(ls, lo, hi, keep, f)
        ensures exists k :: lo <= k < hi && keep(ls[k]) && y == f(ls[k])
      {
        if y !in Harvest(ls, lo, hi - 1, keep, f) {
          assert keep(ls[hi - 1]) && y == f(ls[hi - 1]);
        }
      }
    }
  }

  /** Joining one more item. */
  lemma {:induction false} JoinSnoc(xs: seq<string>, y: string, sep: string)
    requires xs != []
    ensures Join(xs + [y], sep) == Join(xs, sep) + sep + y
    decreases |xs|
  {
    if |xs| > 1 {
      JoinSnoc(xs[1..], y, sep);
      assert (xs + [y])[1..] == xs[1..] + [y];
    }
  }

  /** Trimmed, non-empty items joined with a blank give a trimmed, non-empty string. */
  lemma {:induction false} JoinTrimmed(xs: seq<string>)
    requires xs != []
    requires forall k :: 0 <= k < |xs| ==> xs[k] != "" && IsTrimmed(xs[k])
    ensures Join(xs, " ") != "" && IsTrimmed(Join(xs, " "))
    decreases |xs|
  {
    if |xs| > 1 {
      JoinTrimmed(xs[1..]);
      var rest := Join(xs[1..], " ");
      assert Join(xs, " ") == xs[0] + " " + rest;
      assert Join(xs, " ")[0] == xs[0][0];
    }
  }

  /** A blank behind a trimmed, non-empty string is trimmed away. */
  lemma TrimBlankAfter(s: string)
    requires s != [] && IsTrimmed(s)
    ensures Trim(s + " ") == s
  {
    assert TrimStart(s + " ") == s + " ";
    assert (s + " ")[..|s|] == s;
    assert TrimEnd(s + " ") == TrimEnd(s);
  }

  // ------------------------------------------------- decimal conversion

  predicate IsDigit(c: char) {
    '0' <= c <= '9'
  }

  function DigitChar(n: nat): (c: char)
    requires n < 10
    ensures IsDigit(c) && c as int - '0' as int == n
  {
    ('0' as int + n) as char
  }

  /** `n.toString()` for a non-negative integer: decimal digits, no leading zero. */
  function NatToString(n: nat): (r: string)
    ensures |r| >= 1
    ensures forall k :: 0 <= k < |r| ==> IsDigit(r[k])
    decreases n
  {
    if n < 10 then [DigitChar(n)] else NatToString(n / 10) + [DigitChar(n % 10)]
  }

  /** `n.toString()` for any integer. */
  function IntToString(n: int): string {
    if n < 0 then "-" + NatToString(-n) else NatToString(n)
  }

  predicate IsHexLetter(c: char) {
    'a' <= c <= 'f' || 'A' <= c <= 'F'
  }

  predicate IsRadixDigit(c: char, hex: bool) {
    IsDigit(c) || (hex && IsHexLetter(c))
  }

  function DigitValue(c: char): nat
    requires IsDigit(c) || IsHexLetter(c)
  {
    if IsDigit(c) then c as int - '0' as int
    else if 'a' <= c <= 'f' then c as int - 'a' as int + 10
    else c as int - 'A' as int + 10
  }

  /** The longest prefix of `s` made of digits of the radix. */
  function DigitRun(s: string, hex: bool): (r: string)
    ensures |r| <= |s| && r == s[..|r|]
    ensures forall k :: 0 <= k < |r| ==> IsRadixDigit(r[k], hex)
    ensures |r| < |s| ==> !IsRadixDigit(s[|r|], hex)
    decreases |s|
  {
    if |s| > 0 && IsRadixDigit(s[0], hex) then [s[0]] + DigitRun(s[1..], hex) else []
  }

  /** The value of a digit string in radix 10 or 16, most significant first. */
  function RadixValue(ds: string, hex: bool): nat
    requires forall k :: 0 <= k < |ds| ==> IsRadixDigit(ds[k], hex)
    decreases |ds|
  {
    if ds == [] then 0
    else
      var last := ds[|ds| - 1];
      assert IsRadixDigit(last, hex);
      RadixValue(ds[..|ds| - 1], hex) * (if hex then 16 else 10) + DigitValue(last)
  }

  /** The global `parseInt(s)` with no radix argument: leading white space is
      skipped, one sign is read, a `0x`/`0X` prefix selects radix 16, and the
      longest digit prefix is read; no digit at all gives NaN (None). */
  function ParseInt(s: string): Option<int> {
    var t := TrimStart(s);
    if |t| > 0 && t[0] == '-' then
      match ParseUnsigned(t[1..])
      case Some(v) => Some(-(v as int))
      case None => None
    else if |t| > 0 && t[0] == '+' then ParseUnsigned(t[1..])
    else ParseUnsigned(t)
  }

  function ParseUnsigned(u: string): Option<int> {
    var hex := |u| >= 2 && u[0] == '0' && (u[1] == 'x' || u[1] == 'X');
    var ds := DigitRun(if hex then u[2..] else u, hex);
    if ds == [] then None else Some(RadixValue(ds, hex))
  }

  lemma {:induction false} NatToStringValue(n: nat)
    ensures RadixValue(NatToString(n), false) == n
    decreases n
  {
    if n >= 10 {
      NatToStringValue(n / 10);
      var r := NatToString(n);
      assert r[..|r| - 1] == NatToString(n / 10);
    }
  }

  lemma {:induction false} DigitRunAll(s: string)
    requires forall k :: 0 <= k < |s| ==> IsDigit(s[k])
    ensures DigitRun(s, false) == s
    decreases |s|
  {
    if |s| > 0 {
      DigitRunAll(s[1..]);
      assert [s[0]] + s[1..] == s;
    }
  }

  /** A digit string with no sign or prefix is read as its decimal value. */
  lemma ParseUnsignedDigits(ds: string)
    requires |ds| >= 1 && forall k :: 0 <= k < |ds| ==> IsDigit(ds[k])
    ensures ParseUnsigned(ds) == Some(RadixValue(ds, false) as int)
  {
    assert |ds| >= 2 ==> ds[1] != 'x' && ds[1] != 'X';
    DigitRunAll(ds);
  }

  /** `parseInt(n.toString()) === n`: the decimal text of an integer reads back as it. */
  lemma ParseIntToString(n: int)
    ensures ParseInt(IntToString(n)) == Some(n)
  {
    var m: nat := if n < 0 then -n else n;
    var ds := NatToString(m);
    NatToStringValue(m);
    ParseUnsignedDigits(ds);
    var s := IntToString(n);
    assert !IsSpace(s[0]);
    assert TrimStart(s) == s;
    if n < 0 {
      assert s[1..] == ds;
    }
  }
}
