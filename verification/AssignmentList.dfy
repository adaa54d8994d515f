/**
 The broker's reader of a member's reported assignment list, and the client's
 list encoding it has to invert. Topic names stay bytes; whether bytes are
 UTF-8 is a parameter.
 */
module AssignmentList {
  import opened Options
  import opened Bytes
  import opened Format
  import opened Messages

  function ItemBytes(a: Assignment): Bytes { Little(|a.topic|, 2) + a.topic + Little(a.partition, 4) }

  function ItemsBytes(xs: seq<Assignment>): Bytes {
    if xs == [] then [] else ItemBytes(xs[0]) + ItemsBytes(xs[1..])
  }

  function ListBytes(xs: seq<Assignment>): Bytes { Little(|xs|, 4) + ItemsBytes(xs) }

  /** The layout is the one the client writes. */
  lemma {:induction false} ItemsAsWritten(xs: seq<Assignment>)
    ensures PutAll(ASSIGNMENT, xs) == ItemsBytes(xs)
  {
    if xs != [] {
      ItemsAsWritten(xs[1..]);
      assert ASSIGNMENT == Map(Pair(TEXT, NUMBER32), MakeAssignment, AssignmentParts);
      var p := AssignmentParts(xs[0]);
      assert ASSIGNMENT.put(xs[0]) == Pair(TEXT, NUMBER32).put(p) == TEXT.put(p.0) + NUMBER32.put(p.1);
      assert ASSIGNMENT.put(xs[0]) == ItemBytes(xs[0]);
    }
  }

  lemma ListAsWritten(xs: seq<Assignment>)
    ensures List(ASSIGNMENT).put(xs) == ListBytes(xs)
  {
    ItemsAsWritten(xs);
  }

  ghost predicate IsItem(utf8: Bytes -> bool, a: Assignment) { |a.topic| <= MAX_STRING && utf8(a.topic) }

  /** `data` is the encoding of `xs`, which the client's writer accepts and whose count fits. */
  ghost predicate Encodes(utf8: Bytes -> bool, data: Bytes, xs: seq<Assignment>) {
    && data == ListBytes(xs) && |xs| <= NULL_LEN
    && forall a <- xs :: IsItem(utf8, a)
  }

  /** Having read `done` and standing at `i`, every list that `data` could encode continues `done` with what is left. */
  ghost predicate Tracks(utf8: Bytes -> bool, data: Bytes, n: nat, done: seq<Assignment>, i: nat) {
    i <= |data| && |done| <= n && forall xs | Encodes(utf8, data, xs) :: TracksOne(data, xs, n, done, i)
  }

  ghost predicate TracksOne(data: Bytes, xs: seq<Assignment>, n: nat, done: seq<Assignment>, i: nat)
    requires i <= |data|
  {
    |xs| == n && done <= xs && data[i..] == ItemsBytes(xs[|done|..])
  }

  lemma {:induction false} ItemsSize(xs: seq<Assignment>)
    ensures |ItemsBytes(xs)| >= 6 * |xs|
  {
    if xs != [] { ItemsSize(xs[1..]); }
  }

  lemma {:induction false} ItemsAppend(xs: seq<Assignment>, a: Assignment)
    ensures ItemsBytes(xs + [a]) == ItemsBytes(xs) + ItemBytes(a)
  {
    if xs == [] {
      assert xs + [a] == [a] && [a][1..] == [];
      assert ItemsBytes([a]) == ItemBytes(a) + ItemsBytes([]);
    } else {
      ItemsAppend(xs[1..], a);
      assert (xs + [a])[1..] == xs[1..] + [a];
      assert ItemsBytes(xs + [a]) == ItemBytes(xs[0]) + (ItemsBytes(xs[1..]) + ItemBytes(a));
    }
  }

  /** The first four bytes determine the count. */
  lemma CountRead(utf8: Bytes -> bool, data: Bytes, xs: seq<Assignment>)
    requires Encodes(utf8, data, xs)
    ensures |data| >= 4 && FromLittle(data[..4]) == |xs| && |xs| <= (|data| - 4) / 6
    ensures TracksOne(data, xs, |xs|, [], 4)
  {
    assert data[..4] == Little(|xs|, 4);
    Limits();
    LittleRoundTrip(|xs|, 4);
    ItemsSize(xs);
    assert xs[0..] == xs && data[4..] == ItemsBytes(xs);
  }

  /** The bytes at the front of an item read back. */
  lemma ItemReads(b: Bytes, a: Assignment, rest: Bytes)
    requires b == ItemBytes(a) + rest && |a.topic| <= MAX_STRING
    ensures var t := |a.topic|;
            && 2 + t + 4 <= |b| && FromLittle(b[..2]) == t && b[2..2 + t] == a.topic
            && FromLittle(b[2 + t..2 + t + 4]) == a.partition && b[2 + t + 4..] == rest
  {
    var t := |a.topic|;
    Limits();
    LittleRoundTrip(t, 2);
    LittleRoundTrip(a.partition, 4);
    assert b[..2] == Little(t, 2);
    assert b[2 + t..2 + t + 4] == Little(a.partition, 4);
  }

  /** Slices of a tail are slices of the whole. */
  lemma SlicesFrom(data: Bytes, i: nat, from: nat, to: nat)
    requires i <= |data| && from <= to <= |data| - i
    ensures data[i..][from..to] == data[i + from..i + to] && data[i..][to..] == data[i + to..]
  { }

  /** The next item is there in full and reads back. */
  lemma NextItem(utf8: Bytes -> bool, data: Bytes, xs: seq<Assignment>, n: nat, done: seq<Assignment>, i: nat)
    requires i <= |data| && TracksOne(data, xs, n, done, i) && |done| < n
    requires IsItem(utf8, xs[|done|])
    ensures var a := xs[|done|];
            && i + 2 + |a.topic| + 4 <= |data| && FromLittle(data[i..i + 2]) == |a.topic|
            && data[i + 2..i + 2 + |a.topic|] == a.topic
            && FromLittle(data[i + 2 + |a.topic|..i + 2 + |a.topic| + 4]) == a.partition
            && TracksOne(data, xs, n, done + [a], i + 2 + |a.topic| + 4)
  {
    var a, rest := xs[|done|], xs[|done|..];
    assert rest[0] == a && rest[1..] == xs[|done| + 1..];
    ItemReads(data[i..], a, ItemsBytes(rest[1..]));
    SlicesFrom(data, i, 0, 2);
    SlicesFrom(data, i, 2, 2 + |a.topic|);
    SlicesFrom(data, i, 2 + |a.topic|, 2 + |a.topic| + 4);
    assert done + [a] <= xs;
  }

  /** No list at all is encoded when one item cannot be read here. */
  lemma Stuck(utf8: Bytes -> bool, data: Bytes, n: nat, done: seq<Assignment>, i: nat)
    requires Tracks(utf8, data, n, done, i) && |done| < n
    requires forall a :: !(IsItem(utf8, a) && Fits(data, i, a))
    ensures forall xs :: !Encodes(utf8, data, xs)
  {
    forall xs | Encodes(utf8, data, xs) ensures false {
      assert TracksOne(data, xs, n, done, i);
      NextItem(utf8, data, xs, n, done, i);
      assert IsItem(utf8, xs[|done|]) && Fits(data, i, xs[|done|]);
    }
  }

  predicate Fits(data: Bytes, i: nat, a: Assignment) {
    && i + 2 + |a.topic| + 4 <= |data| && FromLittle(data[i..i + 2]) == |a.topic|
    && data[i + 2..i + 2 + |a.topic|] == a.topic && FromLittle(data[i + 2 + |a.topic|..i + 2 + |a.topic| + 4]) == a.partition
  }

  lemma Advance(utf8: Bytes -> bool, data: Bytes, n: nat, done: seq<Assignment>, i: nat, a: Assignment)
    requires Tracks(utf8, data, n, done, i) && |done| < n && Fits(data, i, a)
    ensures Tracks(utf8, data, n, done + [a], i + 2 + |a.topic| + 4)
  {
    forall xs | Encodes(utf8, data, xs) ensures TracksOne(data, xs, n, done + [a], i + 2 + |a.topic| + 4) {
      assert TracksOne(data, xs, n, done, i);
      NextItem(utf8, data, xs, n, done, i);
      assert xs[|done|] == a;
    }
  }

  /** What was read so far is what the client would have written. */
  ghost predicate Consumed(utf8: Bytes -> bool, data: Bytes, n: nat, done: seq<Assignment>, i: nat) {
    && i <= |data| && data[..i] == Little(n, 4) + ItemsBytes(done)
    && forall a <- done :: IsItem(utf8, a)
  }

  lemma ItemSlice(data: Bytes, i: nat, a: Assignment)
    requires Fits(data, i, a)
    ensures data[i..i + 2 + |a.topic| + 4] == ItemBytes(a)
  {
    var t := |a.topic|;
    FromLittleRoundTrip(data[i..i + 2]);
    FromLittleRoundTrip(data[i + 2 + t..i + 2 + t + 4]);
    assert data[i..i + 2 + t + 4] == data[i..i + 2] + data[i + 2..i + 2 + t] + data[i + 2 + t..i + 2 + t + 4];
  }

  lemma Consume(utf8: Bytes -> bool, data: Bytes, n: nat, done: seq<Assignment>, i: nat, a: Assignment)
    requires Consumed(utf8, data, n, done, i) && Fits(data, i, a) && IsItem(utf8, a)
    ensures Consumed(utf8, data, n, done + [a], i + 2 + |a.topic| + 4)
  {
    var j := i + 2 + |a.topic| + 4;
    ItemSlice(data, i, a);
    ItemsAppend(done, a);
    assert data[..j] == data[..i] + data[i..j];
    assert Little(n, 4) + ItemsBytes(done) + ItemBytes(a) == Little(n, 4) + (ItemsBytes(done) + ItemBytes(a));
  }

  /** One turn of the decoder's loop at `i`: the item there, if there is one. */
  method ReadItem(data: Bytes, utf8: Bytes -> bool, i: nat) returns (r: Option<Assignment>)
    ensures forall a :: r == Some(a) <==> IsItem(utf8, a) && Fits(data, i, a)
  {
    Limits();
    if i + 2 > |data| { return None; }
    var tlen := FromLittle(data[i..i + 2]);
    FromLittleRoundTrip(data[i..i + 2]);
    var at := i + 2;
    if at + tlen + 4 > |data| { return None; }
    if !utf8(data[at..at + tlen]) { return None; }
    FromLittleRoundTrip(data[at + tlen..at + tlen + 4]);
    return Some(Assignment(data[at..at + tlen], FromLittle(data[at + tlen..at + tlen + 4])));
  }

  /** Accepts exactly the encodings, and returns the list encoded. */
  method Decode(data: Bytes, utf8: Bytes -> bool) returns (r: Option<seq<Assignment>>)
    ensures forall xs :: r == Some(xs) <==> Encodes(utf8, data, xs)
  {
    forall xs | Encodes(utf8, data, xs) { CountRead(utf8, data, xs); }
    if data == [] { return None; }
    if |data| < 4 { return None; }
    var n := FromLittle(data[..4]);
    if n > (|data| - 4) / 6 { return None; }
    r := ReadItems(data, utf8, n);
  }

  method ReadItems(data: Bytes, utf8: Bytes -> bool, n: nat) returns (r: Option<seq<Assignment>>)
    requires |data| >= 4 && n == FromLittle(data[..4]) && Tracks(utf8, data, n, [], 4)
    ensures forall xs :: r == Some(xs) <==> Encodes(utf8, data, xs)
  {
    FromLittleRoundTrip(data[..4]);
    Limits();
    var i: nat, out := 4, [];
    assert data[..4] == Little(n, 4) + ItemsBytes([]);
    for k := 0 to n
      invariant |out| == k && Tracks(utf8, data, n, out, i) && Consumed(utf8, data, n, out, i)
    {
      var a := ReadItem(data, utf8, i);
      if a.None? {
        Stuck(utf8, data, n, out, i);
        return None;
      }
      Advance(utf8, data, n, out, i, a.value);
      Consume(utf8, data, n, out, i, a.value);
      out := out + [a.value];
      i := i + 2 + |a.value.topic| + 4;
    }
    AtEnd(utf8, data, n, out, i);
    if i != |data| { return None; }
    return Some(out);
  }

  lemma AtEnd(utf8: Bytes -> bool, data: Bytes, n: nat, out: seq<Assignment>, i: nat)
    requires n <= NULL_LEN && |out| == n && Tracks(utf8, data, n, out, i) && Consumed(utf8, data, n, out, i)
    ensures forall xs :: Encodes(utf8, data, xs) <==> i == |data| && xs == out
  {
    forall xs | Encodes(utf8, data, xs) ensures xs == out && i == |data| {
      assert TracksOne(data, xs, n, out, i);
    }
    if i == |data| { assert data[..i] == data; }
  }
}
