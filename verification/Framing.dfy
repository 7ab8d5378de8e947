/** Reading a stream of self-delimiting messages from a pipe that cuts it into
    arbitrary chunks: every reader of this system appends a chunk to a buffer and then
    takes messages off the front until none is complete. */
module Framing {
  import opened Bytes

  /** One attempt to take a message off the front of a buffer. */
  datatype Outcome<T> = NeedMore | Fail | Item(item: T, used: nat)

  /** What a reader has handled, what it still buffers, and whether it gave up. */
  datatype Progress<T> = Progress(items: seq<T>, rest: seq<byte>, failed: bool)

  /** A decoder suitable for buffering: it consumes something, and once it has decided,
      more input does not change its mind. */
  ghost predicate Incremental<T(!new)>(dec: seq<byte> -> Outcome<T>) {
    && (forall b :: dec(b).Item? ==> 0 < dec(b).used <= |b|)
    && (forall b, x :: Decided(dec, b, x))
  }

  ghost predicate Decided<T>(dec: seq<byte> -> Outcome<T>, b: seq<byte>, x: seq<byte>) {
    !dec(b).NeedMore? ==> dec(b + x) == dec(b)
  }

  /** An encoder whose messages the decoder recognises whatever follows them. */
  ghost predicate Recognises<T(!new)>(dec: seq<byte> -> Outcome<T>, enc: T -> seq<byte>, good: T -> bool) {
    forall t, x :: good(t) ==> Recognised(dec, enc, t, x)
  }

  ghost predicate Recognised<T>(dec: seq<byte> -> Outcome<T>, enc: T -> seq<byte>, t: T, x: seq<byte>) {
    dec(enc(t) + x) == Item(t, |enc(t)|)
  }

  /** Takes every complete message off the front of `buf`. */
  ghost function Drain<T(!new)>(dec: seq<byte> -> Outcome<T>, buf: seq<byte>): (p: Progress<T>)
    requires Incremental(dec)
    ensures !p.failed ==> dec(p.rest).NeedMore?
    decreases |buf|
  {
    match dec(buf)
    case NeedMore => Progress([], buf, false)
    case Fail => Progress([], [], true)
    case Item(t, n) =>
      var d := Drain(dec, buf[n..]);
      Progress([t] + d.items, d.rest, d.failed)
  }

  /** One iteration of a reader loop: append the chunk, then drain. */
  ghost function Feed<T(!new)>(dec: seq<byte> -> Outcome<T>, p: Progress<T>, chunk: seq<byte>): Progress<T>
    requires Incremental(dec)
  {
    if p.failed then p
    else
      var d := Drain(dec, p.rest + chunk);
      Progress(p.items + d.items, d.rest, d.failed)
  }

  ghost function FeedAll<T(!new)>(dec: seq<byte> -> Outcome<T>, chunks: seq<seq<byte>>): Progress<T>
    requires Incremental(dec)
  {
    if chunks == [] then Progress([], [], false)
    else Feed(dec, FeedAll(dec, chunks[..|chunks| - 1]), chunks[|chunks| - 1])
  }

  ghost function Concat<T>(parts: seq<seq<T>>): seq<T> {
    if parts == [] then [] else Concat(parts[..|parts| - 1]) + parts[|parts| - 1]
  }

  function EncodeAll<T>(enc: T -> seq<byte>, items: seq<T>): seq<byte> {
    if items == [] then [] else enc(items[0]) + EncodeAll(enc, items[1..])
  }

  lemma {:induction false} DrainAppend<T(!new)>(dec: seq<byte> -> Outcome<T>, a: seq<byte>, x: seq<byte>)
    requires Incremental(dec)
    ensures Drain(dec, a + x) == Feed(dec, Drain(dec, a), x)
    decreases |a|
  {
    match dec(a)
    case NeedMore =>
    case Fail =>
      assert Decided(dec, a, x);
    case Item(t, n) =>
      DrainAppend(dec, a[n..], x);
      assert (a + x)[n..] == a[n..] + x;
      assert Decided(dec, a, x);
      var d, e := Drain(dec, a[n..]), Drain(dec, Drain(dec, a[n..]).rest + x);
      assert ([t] + d.items) + e.items == [t] + (d.items + e.items);
  }

  /** What a reader handles depends only on the bytes, not on how they were cut. */
  lemma {:induction false} ChunkingIrrelevant<T(!new)>(dec: seq<byte> -> Outcome<T>, chunks: seq<seq<byte>>)
    requires Incremental(dec)
    requires dec([]).NeedMore?
    ensures FeedAll(dec, chunks) == Drain(dec, Concat(chunks))
  {
    if chunks == [] {
    } else {
      var front := chunks[..|chunks| - 1];
      ChunkingIrrelevant(dec, front);
      DrainAppend(dec, Concat(front), chunks[|chunks| - 1]);
    }
  }

  lemma DrainOne<T(!new)>(dec: seq<byte> -> Outcome<T>, m: seq<byte>, t: T, more: seq<byte>)
    requires Incremental(dec) && dec(m + more) == Item(t, |m|)
    ensures var d := Drain(dec, more);
      Drain(dec, m + more) == Progress([t] + d.items, d.rest, d.failed)
  {
    assert (m + more)[|m|..] == more;
  }

  /** Draining well-formed messages yields exactly those messages, then whatever follows. */
  lemma {:induction false} DrainEncoded<T(!new)>(dec: seq<byte> -> Outcome<T>, enc: T -> seq<byte>, good: T -> bool,
                                                 items: seq<T>, tail: seq<byte>)
    requires Incremental(dec) && Recognises(dec, enc, good)
    requires forall t :: t in items ==> good(t)
    ensures Drain(dec, EncodeAll(enc, items) + tail)
         == Progress(items + Drain(dec, tail).items, Drain(dec, tail).rest, Drain(dec, tail).failed)
  {
    if items == [] {
      assert EncodeAll(enc, items) + tail == tail;
    } else {
      var first, rest := items[0], items[1..];
      var more, d := EncodeAll(enc, rest) + tail, Drain(dec, tail);
      DrainEncoded(dec, enc, good, rest, tail);
      ConcatAssoc(enc(first), EncodeAll(enc, rest), tail);
      assert Recognised(dec, enc, first, more);
      DrainOne(dec, enc(first), first, more);
      ConcatAssoc([first], rest, d.items);
      assert items == [first] + rest;
    }
  }

  lemma {:induction false} EncodeAllAppend<T>(enc: T -> seq<byte>, a: seq<T>, b: seq<T>)
    ensures EncodeAll(enc, a + b) == EncodeAll(enc, a) + EncodeAll(enc, b)
  {
    if a == [] {
      assert a + b == b;
    } else {
      EncodeAllAppend(enc, a[1..], b);
      assert (a + b)[1..] == a[1..] + b;
    }
  }

  /** End to end: any list of good messages, any cut of its bytes into chunks. */
  lemma AnyChunkingDeliversAll<T(!new)>(dec: seq<byte> -> Outcome<T>, enc: T -> seq<byte>, good: T -> bool,
                                        items: seq<T>, chunks: seq<seq<byte>>)
    requires Incremental(dec) && Recognises(dec, enc, good) && dec([]).NeedMore?
    requires forall t :: t in items ==> good(t)
    requires Concat(chunks) == EncodeAll(enc, items)
    ensures FeedAll(dec, chunks) == Progress(items, [], false)
  {
    ChunkingIrrelevant(dec, chunks);
    DrainEncoded(dec, enc, good, items, []);
    assert EncodeAll(enc, items) + [] == EncodeAll(enc, items);
    assert items + [] == items;
  }

  // ----- a reader that sees less than was written -----

  ghost predicate Understood<S, T>(dec: seq<byte> -> Outcome<T>, enc: S -> seq<byte>, mean: S -> T, s: S, x: seq<byte>) {
    dec(enc(s) + x) == Item(mean(s), |enc(s)|)
  }

  function Meant<S, T>(mean: S -> T, items: seq<S>): seq<T> {
    if items == [] then [] else [mean(items[0])] + Meant(mean, items[1..])
  }

  /** Whatever the decoder makes of each item, it makes of every sequence of them, cut
      anywhere. */
  lemma AnyChunkingIsUnderstood<S(!new), T(!new)>(dec: seq<byte> -> Outcome<T>, enc: S -> seq<byte>, mean: S -> T,
                                                  items: seq<S>, chunks: seq<seq<byte>>)
    requires Incremental(dec) && dec([]).NeedMore?
    requires forall s, x :: s in items ==> Understood(dec, enc, mean, s, x)
    requires Concat(chunks) == EncodeAll(enc, items)
    ensures FeedAll(dec, chunks) == Progress(Meant(mean, items), [], false)
  {
    ChunkingIrrelevant(dec, chunks);
    DrainUnderstood(dec, enc, mean, items);
  }

  lemma {:induction false} DrainUnderstood<S(!new), T(!new)>(dec: seq<byte> -> Outcome<T>, enc: S -> seq<byte>,
                                                             mean: S -> T, items: seq<S>)
    requires Incremental(dec) && dec([]).NeedMore?
    requires forall s, x :: s in items ==> Understood(dec, enc, mean, s, x)
    ensures Drain(dec, EncodeAll(enc, items)) == Progress(Meant(mean, items), [], false)
  {
    if items == [] {
    } else {
      var s, more := items[0], EncodeAll(enc, items[1..]);
      DrainUnderstood(dec, enc, mean, items[1..]);
      assert Understood(dec, enc, mean, s, more);
      DrainOne(dec, enc(s), mean(s), more);
    }
  }
}
