/**
 Payload formats as pairs of a writer and a reader, and the ways the message
 formats are put together from smaller ones. A lawful format reads back what
 it wrote, and leaves what follows untouched, exactly when every length fits
 its length field.
 */
module Format {
  import opened Options
  import opened Bytes

  type U8 = Byte
  type U16 = x: int | 0 <= x < 0x1_0000
  type U32 = x: int | 0 <= x < 0x1_0000_0000
  type U64 = x: int | 0 <= x < 0x1_0000_0000_0000_0000
  type I32 = x: int | -0x8000_0000 <= x < 0x8000_0000
  type I64 = x: int | -0x8000_0000_0000_0000 <= x < 0x8000_0000_0000_0000

  datatype Parsed<+T> = Ok(value: T, rest: Bytes) | Fail

  /**
   `fits` is what the writer demands of a value: it refuses the others.
   `within` says that every length fits its field, which the writer does not
   look at.
   */
  datatype Format<!T> = Format(put: T -> Bytes, get: Bytes -> Parsed<T>, fits: T -> bool, within: T -> bool)

  /** The length that marks absent bytes. */
  const NULL_LEN: U32 := 0xFFFF_FFFF
  const MAX_STRING: nat := 0xFFFF

  ghost predicate Faithful<T(!new)>(f: Format<T>, x: T, tail: Bytes) {
    var p := f.get(f.put(x) + tail);
    if f.within(x) then p == Ok(x, tail) else p.Ok? ==> p.value != x
  }

  ghost predicate ReadsBack<T(!new)>(f: Format<T>, x: T) {
    && |f.put(x)| > 0
    && (|f.put(x)| < NULL_LEN ==> f.within(x))
    && (f.fits(x) ==> forall tail :: Faithful(f, x, tail))
  }

  ghost predicate Lawful<T(!new)>(f: Format<T>) { forall x :: ReadsBack(f, x) }

  // ---------- numbers ----------

  function GetNumber(k: nat, b: Bytes): (p: Parsed<nat>)
    ensures p.Ok? ==> p.value < Limit(k)
  {
    if |b| < k then Fail else FromLittleRoundTrip(b[..k]); Ok(FromLittle(b[..k]), b[k..])
  }

  lemma NumberReadsBack(v: nat, k: nat, tail: Bytes)
    requires v < Limit(k)
    ensures GetNumber(k, Little(v, k) + tail) == Ok(v, tail)
  {
    LittleRoundTrip(v, k);
    assert (Little(v, k) + tail)[..k] == Little(v, k);
  }

  function GetU8(b: Bytes): Parsed<U8> { Limits(); match GetNumber(1, b) case Ok(v, t) => Ok(v, t) case Fail => Fail }
  function GetU16(b: Bytes): Parsed<U16> { Limits(); match GetNumber(2, b) case Ok(v, t) => Ok(v, t) case Fail => Fail }
  function GetU32(b: Bytes): Parsed<U32> { Limits(); match GetNumber(4, b) case Ok(v, t) => Ok(v, t) case Fail => Fail }
  function GetU64(b: Bytes): Parsed<U64> { Limits(); match GetNumber(8, b) case Ok(v, t) => Ok(v, t) case Fail => Fail }

  /** Two's complement. */
  function ToI32(v: U32): I32 { if v < 0x8000_0000 then v else v - 0x1_0000_0000 }
  function OfI32(v: I32): U32 { if v >= 0 then v else v + 0x1_0000_0000 }
  function ToI64(v: U64): I64 { if v < 0x8000_0000_0000_0000 then v else v - 0x1_0000_0000_0000_0000 }
  function OfI64(v: I64): U64 { if v >= 0 then v else v + 0x1_0000_0000_0000_0000 }

  const NUMBER8: Format<U8> := Format((v: U8) => Little(v, 1), GetU8, (v: U8) => true, (v: U8) => true)
  const NUMBER16: Format<U16> := Format((v: U16) => Little(v, 2), GetU16, (v: U16) => true, (v: U16) => true)
  const NUMBER32: Format<U32> := Format((v: U32) => Little(v, 4), GetU32, (v: U32) => true, (v: U32) => true)
  const NUMBER64: Format<U64> := Format((v: U64) => Little(v, 8), GetU64, (v: U64) => true, (v: U64) => true)
  const SIGNED32: Format<I32> := Map(NUMBER32, ToI32, OfI32)
  const SIGNED64: Format<I64> := Map(NUMBER64, ToI64, OfI64)

  lemma NumbersLawful()
    ensures Lawful(NUMBER8) && Lawful(NUMBER16) && Lawful(NUMBER32) && Lawful(NUMBER64)
  {
    Limits();
    forall v: U8 ensures ReadsBack(NUMBER8, v) { forall t ensures Faithful(NUMBER8, v, t) { NumberReadsBack(v, 1, t); } }
    forall v: U16 ensures ReadsBack(NUMBER16, v) { forall t ensures Faithful(NUMBER16, v, t) { NumberReadsBack(v, 2, t); } }
    forall v: U32 ensures ReadsBack(NUMBER32, v) { forall t ensures Faithful(NUMBER32, v, t) { NumberReadsBack(v, 4, t); } }
    forall v: U64 ensures ReadsBack(NUMBER64, v) { forall t ensures Faithful(NUMBER64, v, t) { NumberReadsBack(v, 8, t); } }
  }

  lemma SignedLawful()
    ensures Lawful(SIGNED32) && Lawful(SIGNED64)
  {
    NumbersLawful();
    MapLawful(NUMBER32, ToI32, OfI32);
    MapLawful(NUMBER64, ToI64, OfI64);
  }

  // ---------- strings and byte strings ----------

  function GetTake(n: nat, b: Bytes): Parsed<Bytes> { if |b| < n then Fail else Ok(b[..n], b[n..]) }

  function GetString(b: Bytes): Parsed<Bytes> {
    match GetU16(b) case Fail => Fail case Ok(n, rest) => GetTake(n, rest)
  }

  function GetBytes(b: Bytes): Parsed<Bytes> {
    match GetU32(b) case Fail => Fail case Ok(n, rest) => if n == NULL_LEN then Fail else GetTake(n, rest)
  }

  function GetOptional(b: Bytes): Parsed<Option<Bytes>> {
    match GetU32(b)
    case Fail => Fail
    case Ok(n, rest) =>
      if n == NULL_LEN then Ok(None, rest)
      else match GetTake(n, rest) case Fail => Fail case Ok(v, t) => Ok(Some(v), t)
  }

  function PutBytes(v: Bytes): Bytes { Little(|v|, 4) + v }

  function PutOptional(v: Option<Bytes>): Bytes { if v.None? then Little(NULL_LEN, 4) else PutBytes(v.value) }

  predicate ShortBytes(v: Bytes) { |v| < NULL_LEN }

  predicate ShortOptional(v: Option<Bytes>) { v.Some? ==> |v.value| < NULL_LEN }

  const TEXT: Format<Bytes> :=
    Format((s: Bytes) => Little(|s|, 2) + s, GetString, (s: Bytes) => |s| <= MAX_STRING, (s: Bytes) => true)
  const BYTE_STRING: Format<Bytes> := Format(PutBytes, GetBytes, (v: Bytes) => true, ShortBytes)
  const OPTIONAL_BYTES: Format<Option<Bytes>> := Format(PutOptional, GetOptional, (v: Option<Bytes>) => true, ShortOptional)

  lemma LengthPrefixed(v: Bytes, k: nat, tail: Bytes)
    requires |v| < Limit(k)
    ensures GetNumber(k, Little(|v|, k) + v + tail) == Ok(|v|, v + tail)
    ensures GetTake(|v|, v + tail) == Ok(v, tail)
  {
    NumberReadsBack(|v|, k, v + tail);
    assert Little(|v|, k) + v + tail == Little(|v|, k) + (v + tail);
  }

  lemma TextLawful()
    ensures Lawful(TEXT)
  {
    Limits();
    forall s: Bytes ensures ReadsBack(TEXT, s) {
      if |s| <= MAX_STRING { forall t ensures Faithful(TEXT, s, t) { LengthPrefixed(s, 2, t); } }
    }
  }

  lemma BytesLawful()
    ensures Lawful(BYTE_STRING) && Lawful(OPTIONAL_BYTES)
  {
    Limits();
    forall v: Bytes ensures ReadsBack(BYTE_STRING, v) {
      if |v| < NULL_LEN { forall t ensures Faithful(BYTE_STRING, v, t) { LengthPrefixed(v, 4, t); } }
    }
    forall v: Option<Bytes> ensures ReadsBack(OPTIONAL_BYTES, v) {
      forall t ensures Faithful(OPTIONAL_BYTES, v, t) {
        if v.None? {
          NumberReadsBack(NULL_LEN, 4, t);
        } else if |v.value| < NULL_LEN {
          LengthPrefixed(v.value, 4, t);
        }
      }
    }
  }

  // ---------- one after the other, and the same under another name ----------

  function GetPair<A, B>(f: Format<A>, g: Format<B>, b: Bytes): Parsed<(A, B)> {
    match f.get(b)
    case Fail => Fail
    case Ok(x, rest) => match g.get(rest) case Fail => Fail case Ok(y, t) => Ok((x, y), t)
  }

  function Pair<A, B>(f: Format<A>, g: Format<B>): Format<(A, B)> {
    Format((p: (A, B)) => f.put(p.0) + g.put(p.1),
           (b: Bytes) => GetPair(f, g, b),
           (p: (A, B)) => f.fits(p.0) && g.fits(p.1),
           (p: (A, B)) => f.within(p.0) && g.within(p.1))
  }

  lemma PairLawful<A(!new), B(!new)>(f: Format<A>, g: Format<B>)
    requires Lawful(f) && Lawful(g)
    ensures Lawful(Pair(f, g))
  {
    var h := Pair(f, g);
    forall p ensures ReadsBack(h, p) {
      assert ReadsBack(f, p.0) && ReadsBack(g, p.1);
      forall tail ensures h.fits(p) ==> Faithful(h, p, tail) {
        assert h.put(p) + tail == f.put(p.0) + (g.put(p.1) + tail);
        assert h.fits(p) ==> Faithful(f, p.0, g.put(p.1) + tail) && Faithful(g, p.1, tail);
      }
    }
  }

  lemma TripleLawful<A(!new), B(!new), C(!new)>(f: Format<A>, g: Format<B>, h: Format<C>)
    requires Lawful(f) && Lawful(g) && Lawful(h)
    ensures Lawful(Pair(f, Pair(g, h)))
  {
    PairLawful(g, h);
    PairLawful(f, Pair(g, h));
  }

  function GetMap<A, B>(f: Format<A>, to: A -> B, b: Bytes): Parsed<B> {
    match f.get(b) case Fail => Fail case Ok(x, rest) => Ok(to(x), rest)
  }

  function Map<A, B>(f: Format<A>, to: A -> B, from: B -> A): Format<B> {
    Format((y: B) => f.put(from(y)), (b: Bytes) => GetMap(f, to, b), (y: B) => f.fits(from(y)), (y: B) => f.within(from(y)))
  }

  lemma MapLawful<A(!new), B(!new)>(f: Format<A>, to: A -> B, from: B -> A)
    requires Lawful(f) && (forall y :: to(from(y)) == y) && (forall x :: from(to(x)) == x)
    ensures Lawful(Map(f, to, from))
  {
    var h := Map(f, to, from);
    forall y ensures ReadsBack(h, y) {
      assert ReadsBack(f, from(y));
      forall tail ensures h.fits(y) ==> Faithful(h, y, tail) {
        assert h.fits(y) ==> Faithful(f, from(y), tail);
      }
    }
  }

  // ---------- counted lists ----------

  function PutAll<T>(f: Format<T>, xs: seq<T>): Bytes {
    if xs == [] then [] else f.put(xs[0]) + PutAll(f, xs[1..])
  }

  function GetAll<T>(f: Format<T>, n: nat, b: Bytes): (p: Parsed<seq<T>>)
    ensures p.Ok? ==> |p.value| == n
  {
    if n == 0 then Ok([], b)
    else
      match f.get(b)
      case Fail => Fail
      case Ok(x, rest) => match GetAll(f, n - 1, rest) case Fail => Fail case Ok(xs, t) => Ok([x] + xs, t)
  }

  /** The count is written modulo 2^32. */
  function PutList<T>(f: Format<T>, xs: seq<T>): Bytes { Little(|xs|, 4) + PutAll(f, xs) }

  function GetList<T>(f: Format<T>, b: Bytes): Parsed<seq<T>> {
    match GetU32(b) case Fail => Fail case Ok(n, rest) => GetAll(f, n, rest)
  }

  function List<T(==)>(f: Format<T>): Format<seq<T>> {
    Format((xs: seq<T>) => PutList(f, xs),
           (b: Bytes) => GetList(f, b),
           (xs: seq<T>) => forall x <- xs :: f.fits(x),
           (xs: seq<T>) => |xs| <= NULL_LEN && forall x <- xs :: f.within(x))
  }

  /** An encoding within the limit keeps the count and every element within it. */
  lemma {:induction false} PutAllSize<T(!new)>(f: Format<T>, xs: seq<T>)
    requires Lawful(f)
    ensures |xs| <= |PutAll(f, xs)|
    ensures forall x <- xs :: |f.put(x)| <= |PutAll(f, xs)|
  {
    if xs != [] {
      assert ReadsBack(f, xs[0]);
      PutAllSize(f, xs[1..]);
    }
  }

  lemma {:induction false} AllReadBack<T(!new)>(f: Format<T>, xs: seq<T>, tail: Bytes)
    requires Lawful(f) && forall x <- xs :: f.fits(x)
    ensures var p := GetAll(f, |xs|, PutAll(f, xs) + tail);
            if forall x <- xs :: f.within(x) then p == Ok(xs, tail) else p.Ok? ==> p.value != xs
  {
    if xs == [] {
      assert PutAll(f, xs) + tail == tail;
    } else {
      var x, more := xs[0], xs[1..];
      assert xs == [x] + more;
      var rest := PutAll(f, more) + tail;
      assert PutAll(f, xs) + tail == f.put(x) + rest;
      assert ReadsBack(f, x) && Faithful(f, x, rest);
      AllReadBack(f, more, tail);
    }
  }

  lemma ListReadsBack<T(!new)>(f: Format<T>, xs: seq<T>, tail: Bytes)
    requires Lawful(f) && List(f).fits(xs)
    ensures Faithful(List(f), xs, tail)
  {
    Limits();
    assert PutList(f, xs) + tail == Little(|xs|, 4) + (PutAll(f, xs) + tail);
    if |xs| <= NULL_LEN {
      NumberReadsBack(|xs|, 4, PutAll(f, xs) + tail);
      AllReadBack(f, xs, tail);
    }
  }

  lemma ListLawful<T(!new)>(f: Format<T>)
    requires Lawful(f)
    ensures Lawful(List(f))
  {
    forall xs ensures ReadsBack(List(f), xs) {
      PutAllSize(f, xs);
      forall x | x in xs && |PutList(f, xs)| < NULL_LEN ensures f.within(x) {
        assert ReadsBack(f, x);
      }
      forall tail ensures List(f).fits(xs) ==> Faithful(List(f), xs, tail) {
        if List(f).fits(xs) { ListReadsBack(f, xs, tail); }
      }
    }
  }

  // ---------- fields that older writers leave out ----------

  function GetDefaulted<T>(f: Format<T>, least: nat, absent: T, b: Bytes): Parsed<T> { if |b| < least then Ok(absent, b) else f.get(b) }

  /** Reads `absent` when fewer than `least` bytes are left. */
  function Defaulted<T>(f: Format<T>, least: nat, absent: T): Format<T> {
    Format(f.put, (b: Bytes) => GetDefaulted(f, least, absent, b), f.fits, f.within)
  }

  lemma DefaultedLawful<T(!new)>(f: Format<T>, least: nat, absent: T)
    requires Lawful(f) && forall x :: |f.put(x)| >= least
    ensures Lawful(Defaulted(f, least, absent))
  {
    var h := Defaulted(f, least, absent);
    forall x ensures ReadsBack(h, x) {
      assert ReadsBack(f, x);
      forall tail ensures h.fits(x) ==> Faithful(h, x, tail) {
        assert h.fits(x) ==> Faithful(f, x, tail);
      }
    }
  }

  // ---------- what fits a composite ----------

  lemma PairMeans<A, B>(f: Format<A>, g: Format<B>, x: A, y: B)
    ensures Pair(f, g).fits((x, y)) == (f.fits(x) && g.fits(y))
    ensures Pair(f, g).within((x, y)) == (f.within(x) && g.within(y))
  {
  }

  lemma MapMeans<A, B>(f: Format<A>, to: A -> B, from: B -> A, y: B)
    ensures Map(f, to, from).fits(y) == f.fits(from(y)) && Map(f, to, from).within(y) == f.within(from(y))
  {
  }

  lemma ListMeans<T>(f: Format<T>, xs: seq<T>)
    ensures List(f).fits(xs) == forall x <- xs :: f.fits(x)
    ensures List(f).within(xs) == (|xs| <= NULL_LEN && forall x <- xs :: f.within(x))
  {
  }

  // ---------- whole payloads ----------

  /** A payload's reader ignores what follows the last field it knows. */
  function Decode<T>(f: Format<T>, b: Bytes): Option<T> {
    match f.get(b) case Fail => None case Ok(x, _) => Some(x)
  }

  lemma DecodeUndoesPut<T(!new)>(f: Format<T>, x: T)
    requires Lawful(f) && f.fits(x)
    ensures Decode(f, f.put(x)) == Some(x) <==> f.within(x)
    ensures |f.put(x)| < NULL_LEN ==> Decode(f, f.put(x)) == Some(x)
  {
    assert ReadsBack(f, x) && Faithful(f, x, []);
    assert f.put(x) + [] == f.put(x);
  }

  /** A payload cut off before, or inside, its last defaulted field reads as if that field had its default. */
  lemma CutOff<A(!new), B(!new), M(!new)>(f: Format<A>, g: Format<B>, least: nat, absent: B, to: ((A, B)) -> M, from: M -> (A, B), m: M, rest: Bytes)
    requires Lawful(f) && |rest| < least
    requires var h := Map(Pair(f, Defaulted(g, least, absent)), to, from); h.fits(m) && h.within(m)
    ensures Decode(Map(Pair(f, Defaulted(g, least, absent)), to, from), f.put(from(m).0) + rest) == Some(to((from(m).0, absent)))
  {
    assert ReadsBack(f, from(m).0) && Faithful(f, from(m).0, rest);
  }

  /** The same for a defaulted field inside a defaulted trailer. */
  lemma CutOffInner<A(!new), B(!new), C(!new), M(!new)>(
      f: Format<A>, g: Format<B>, h: Format<C>, least: nat, inner: C, absent: (B, C), to: ((A, (B, C))) -> M, from: M -> (A, (B, C)), m: M, rest: Bytes)
    requires Lawful(f) && Lawful(g) && |rest| < least
    requires var k := Map(Pair(f, Defaulted(Pair(g, Defaulted(h, least, inner)), 1, absent)), to, from); k.fits(m) && k.within(m)
    ensures Decode(Map(Pair(f, Defaulted(Pair(g, Defaulted(h, least, inner)), 1, absent)), to, from), f.put(from(m).0) + (g.put(from(m).1.0) + rest))
            == Some(to((from(m).0, (from(m).1.0, inner))))
  {
    var x, y := from(m).0, from(m).1.0;
    assert ReadsBack(f, x) && Faithful(f, x, g.put(y) + rest);
    assert ReadsBack(g, y) && Faithful(g, y, rest);
  }

  /** The same before two defaulted fields in a row. */
  lemma CutOffTwo<A(!new), B(!new), C(!new), M(!new)>(
      f: Format<A>, g: Format<B>, h: Format<C>, least: nat, absent: B, last: C, to: (((A, B), C)) -> M, from: M -> ((A, B), C), m: M, rest: Bytes)
    requires Lawful(f) && |rest| < least
    requires var k := Map(Pair(Pair(f, Defaulted(g, least, absent)), Defaulted(h, least, last)), to, from); k.fits(m) && k.within(m)
    ensures Decode(Map(Pair(Pair(f, Defaulted(g, least, absent)), Defaulted(h, least, last)), to, from), f.put(from(m).0.0) + rest)
            == Some(to(((from(m).0.0, absent), last)))
  {
    var x := from(m).0.0;
    assert ReadsBack(f, x) && Faithful(f, x, rest);
  }

  // ---------- element by element, as loops go ----------

  lemma {:induction false} PutAllNext<T>(f: Format<T>, xs: seq<T>, x: T)
    ensures PutAll(f, xs + [x]) == PutAll(f, xs) + f.put(x)
  {
    if xs == [] {
      assert xs + [x] == [x] && PutAll(f, [x]) == f.put(x) + PutAll(f, []);
    } else {
      PutAllNext(f, xs[1..], x);
      assert (xs + [x])[1..] == xs[1..] + [x];
      assert PutAll(f, xs + [x]) == f.put(xs[0]) + (PutAll(f, xs[1..]) + f.put(x));
    }
  }

  /** `now` is `before` followed by the count of `xs` and its first `i` elements. */
  ghost predicate Writing<T>(f: Format<T>, xs: seq<T>, i: nat, before: Bytes, now: Bytes) {
    && i <= |xs| && now == before + Little(|xs|, 4) + PutAll(f, xs[..i])
    && forall x <- xs[..i] :: f.fits(x)
  }

  /** After writing `x` in format `f`: `ok` tells whether it fitted. */
  ghost predicate Wrote<T>(ok: bool, f: Format<T>, x: T, before: Bytes, after: Bytes) {
    ok == f.fits(x) && (ok ==> after == before + f.put(x))
  }

  lemma WritingStart<T>(f: Format<T>, xs: seq<T>, before: Bytes)
    ensures Writing(f, xs, 0, before, before + Little(|xs|, 4))
  {
    assert before + Little(|xs|, 4) + [] == before + Little(|xs|, 4);
  }

  lemma WritingNext<T>(f: Format<T>, xs: seq<T>, i: nat, before: Bytes, now: Bytes, ok: bool, after: Bytes)
    requires Writing(f, xs, i, before, now) && i < |xs| && Wrote(ok, f, xs[i], now, after)
    ensures if ok then Writing(f, xs, i + 1, before, after) else Wrote(false, List(f), xs, before, after)
  {
    if ok {
      assert xs[..i + 1] == xs[..i] + [xs[i]];
      PutAllNext(f, xs[..i], xs[i]);
      assert now + f.put(xs[i]) == before + Little(|xs|, 4) + (PutAll(f, xs[..i]) + f.put(xs[i]));
    } else {
      assert xs[i] in xs;
    }
  }

  lemma WritingDone<T>(f: Format<T>, xs: seq<T>, before: Bytes, now: Bytes)
    requires Writing(f, xs, |xs|, before, now)
    ensures Wrote(true, List(f), xs, before, now)
  {
    assert xs[..|xs|] == xs;
    assert now == before + (Little(|xs|, 4) + PutAll(f, xs));
  }

  /** Parts written one after the other write the whole; once a part is refused the rest does not matter. */
  lemma PairWrote<A, B>(f: Format<A>, g: Format<B>, p: (A, B), ok: bool, more: bool, b0: Bytes, b1: Bytes, b2: Bytes)
    requires Wrote(ok, f, p.0, b0, b1)
    requires ok ==> Wrote(more, g, p.1, b1, b2)
    ensures Wrote(ok && more, Pair(f, g), p, b0, b2)
  {
    if ok && more {
      assert b0 + (f.put(p.0) + g.put(p.1)) == b0 + f.put(p.0) + g.put(p.1);
    }
  }

  lemma TripleWrote<A, B, C>(f: Format<A>, g: Format<B>, h: Format<C>, p: (A, (B, C)),
                             ok: bool, more: bool, last: bool, b0: Bytes, b1: Bytes, b2: Bytes, b3: Bytes)
    requires Wrote(ok, f, p.0, b0, b1)
    requires ok ==> Wrote(more, g, p.1.0, b1, b2)
    requires ok && more ==> Wrote(last, h, p.1.1, b2, b3)
    ensures Wrote(ok && more && last, Pair(f, Pair(g, h)), p, b0, b3)
  {
    if ok { PairWrote(g, h, p.1, more, last, b1, b2, b3); }
    PairWrote(f, Pair(g, h), p, ok, more && last, b0, b1, b3);
  }

  lemma MapWrote<A, B>(f: Format<A>, to: A -> B, from: B -> A, y: B, ok: bool, before: Bytes, after: Bytes)
    requires Wrote(ok, f, from(y), before, after)
    ensures Wrote(ok, Map(f, to, from), y, before, after)
  {
  }

  lemma DefaultedWrote<T>(f: Format<T>, least: nat, absent: T, x: T, ok: bool, before: Bytes, after: Bytes)
    requires Wrote(ok, f, x, before, after)
    ensures Wrote(ok, Defaulted(f, least, absent), x, before, after)
  {
  }

  /** With `done` read and `m` elements to go at `b`, the whole read is known up to the rest. */
  ghost predicate Ahead<T>(f: Format<T>, whole: Parsed<seq<T>>, done: seq<T>, m: nat, b: Bytes) {
    whole == match GetAll(f, m, b) case Fail => Fail case Ok(xs, t) => Ok(done + xs, t)
  }

  lemma AheadStart<T>(f: Format<T>, n: nat, b: Bytes)
    ensures Ahead(f, GetAll(f, n, b), [], n, b)
  {
    if GetAll(f, n, b).Ok? {
      assert [] + GetAll(f, n, b).value == GetAll(f, n, b).value;
    }
  }

  lemma AheadNext<T>(f: Format<T>, whole: Parsed<seq<T>>, done: seq<T>, m: nat, b: Bytes)
    requires Ahead(f, whole, done, m, b)
    ensures m == 0 ==> whole == Ok(done, b)
    ensures m > 0 && f.get(b).Fail? ==> whole == Fail
    ensures m > 0 && f.get(b).Ok? ==> Ahead(f, whole, done + [f.get(b).value], m - 1, f.get(b).rest)
  {
    if m == 0 {
      assert done + [] == done;
    } else if f.get(b).Ok? {
      var x, rest := f.get(b).value, f.get(b).rest;
      if GetAll(f, m - 1, rest).Ok? {
        var xs := GetAll(f, m - 1, rest).value;
        assert done + ([x] + xs) == done + [x] + xs;
      }
    }
  }
}
