/**
 The browser's live order book: two maps and a sequence number, fed by snapshots and deltas that
 may be lost, repeated or reordered on the way, and by polled REST snapshots.
 */
module ClientMirror {

  datatype Level = Level(price: real, qty: real)

  type Side = map<real, real>

  /** Upsert the listed levels; a quantity of zero deletes. */
  function ApplyDelta(book: Side, levels: seq<Level>): Side
    decreases |levels|
  {
    if levels == [] then book else
    var l := levels[0];
    ApplyDelta(if l.qty == 0.0 then book - {l.price} else book[l.price := l.qty], levels[1..])
  }

  /** A map built from an array of pairs: later entries win. */
  function FromLevels(levels: seq<Level>): Side {
    if levels == [] then map[] else
    var n := |levels| - 1;
    FromLevels(levels[..n])[levels[n].price := levels[n].qty]
  }

  datatype Message =
    | Snapshot(sequence: nat, bids: seq<Level>, asks: seq<Level>)
    | Delta(sequence: nat, bids: seq<Level>, asks: seq<Level>)
    | Rest(sequence: nat, bids: seq<Level>, asks: seq<Level>)

  datatype Mirror = Mirror(bids: Side, asks: Side, sequence: nat)

  function Receive(m: Mirror, msg: Message): Mirror {
    match msg
    case Snapshot(sequence, bids, asks) => Mirror(FromLevels(bids), FromLevels(asks), sequence)
    case Rest(sequence, bids, asks) => Mirror(FromLevels(bids), FromLevels(asks), sequence)
    case Delta(sequence, bids, asks) =>
      if sequence != m.sequence + 1 && m.sequence != 0 then m
      else Mirror(ApplyDelta(m.bids, bids), ApplyDelta(m.asks, asks), sequence)
  }

  class LiveOrderbook {
    var bids: Side
    var asks: Side
    var sequence: nat
    var resubscribed: nat

    ghost function View(): Mirror
      reads this
    {
      Mirror(bids, asks, sequence)
    }

    constructor ()
      ensures View() == Mirror(map[], map[], 0) && resubscribed == 0
    {
      bids, asks, sequence, resubscribed := map[], map[], 0, 0;
    }

    static method Upsert(book0: Side, levels: seq<Level>) returns (book: Side)
      ensures book == ApplyDelta(book0, levels)
    {
      book := book0;
      var i := 0;
      while i < |levels|
        invariant i <= |levels| && ApplyDelta(book, levels[i..]) == ApplyDelta(book0, levels)
      {
        assert levels[i..][1..] == levels[i + 1..];
        if levels[i].qty == 0.0 {
          book := book - {levels[i].price};
        } else {
          book := book[levels[i].price := levels[i].qty];
        }
        i := i + 1;
      }
    }

    static method Build(levels: seq<Level>) returns (book: Side)
      ensures book == FromLevels(levels)
    {
      book := map[];
      for i := 0 to |levels|
        invariant book == FromLevels(levels[..i])
      {
        assert levels[..i + 1][..i] == levels[..i];
        book := book[levels[i].price := levels[i].qty];
      }
      assert levels[..|levels|] == levels;
    }

    method OnMessage(msg: Message)
      modifies this
      ensures View() == Receive(old(View()), msg)
      ensures resubscribed == old(resubscribed) +
                if msg.Delta? && msg.sequence != old(sequence) + 1 && old(sequence) != 0 then 1 else 0
    {
      if msg.Delta? {
        if msg.sequence != sequence + 1 && sequence != 0 {
          resubscribed := resubscribed + 1;
          return;
        }
        bids := Upsert(bids, msg.bids);
        asks := Upsert(asks, msg.asks);
      } else {
        bids := Build(msg.bids);
        asks := Build(msg.asks);
      }
      sequence := msg.sequence;
    }
  }

  // ---- The server's side ---------------------------------------------------------------

  datatype Book = Book(bids: Side, asks: Side)

  predicate Shows(b: Side, price: real, qty: real) {
    if qty == 0.0 then price !in b else price in b && b[price] == qty
  }

  predicate SameAt(a: Side, b: Side, price: real) {
    if price in a then price in b && a[price] == b[price] else price !in b
  }

  predicate Lists(levels: seq<Level>, price: real) {
    exists i :: 0 <= i < |levels| && levels[i].price == price
  }

  /** `levels` says exactly how `b` becomes `b'`: the listed prices have the listed quantities
      afterwards, and all others are as before. */
  ghost predicate Describes(levels: seq<Level>, b: Side, b': Side) {
    && (forall i | 0 <= i < |levels| :: Shows(b', levels[i].price, levels[i].qty))
    && (forall price | !Lists(levels, price) :: SameAt(b, b', price))
  }

  /** `levels` lists the whole side. */
  ghost predicate FullDepth(levels: seq<Level>, b: Side) {
    && (forall i | 0 <= i < |levels| :: levels[i].price in b && b[levels[i].price] == levels[i].qty)
    && (forall price | price in b :: Lists(levels, price))
  }

  /** A message as the server with history `h` may have sent it: any delta, or a full-depth
      snapshot. `h[k]` is the book at sequence `k`; a market starts at sequence zero. */
  ghost predicate Genuine(h: seq<Book>, msg: Message) {
    && msg.sequence < |h| && (msg.Delta? ==> msg.sequence > 0)
    && var k := msg.sequence;
       if msg.Delta? then Describes(msg.bids, h[k - 1].bids, h[k].bids) && Describes(msg.asks, h[k - 1].asks, h[k].asks)
       else FullDepth(msg.bids, h[k].bids) && FullDepth(msg.asks, h[k].asks)
  }

  /** The mirror shows the server's book at the sequence it has recorded. */
  predicate InSync(h: seq<Book>, m: Mirror) {
    m.sequence < |h| && m.bids == h[m.sequence].bids && m.asks == h[m.sequence].asks
  }

  lemma {:induction false} UpsertAt(b: Side, levels: seq<Level>, price: real)
    ensures !Lists(levels, price) ==> SameAt(b, ApplyDelta(b, levels), price)
    ensures Lists(levels, price) ==> exists i :: 0 <= i < |levels| && levels[i].price == price && Shows(ApplyDelta(b, levels), price, levels[i].qty)
    decreases |levels|
  {
    if levels != [] {
      var l, rest := levels[0], levels[1..];
      var b1 := if l.qty == 0.0 then b - {l.price} else b[l.price := l.qty];
      UpsertAt(b1, rest, price);
      if Lists(rest, price) {
        var i :| 0 <= i < |rest| && rest[i].price == price && Shows(ApplyDelta(b1, rest), price, rest[i].qty);
        assert levels[i + 1].price == price && levels[i + 1] == rest[i];
      } else if Lists(levels, price) {
        var i :| 0 <= i < |levels| && levels[i].price == price;
        assert i == 0;
        assert Shows(b1, price, levels[0].qty);
      } else {
        assert levels[0].price != price;
      }
    }
  }

  /** Folding a delta gives the book it describes. */
  lemma DeltaGivesNext(levels: seq<Level>, b: Side, b': Side)
    requires Describes(levels, b, b')
    ensures ApplyDelta(b, levels) == b'
  {
    var r := ApplyDelta(b, levels);
    forall price ensures SameAt(r, b', price) {
      UpsertAt(b, levels, price);
      if Lists(levels, price) {
        var i :| 0 <= i < |levels| && levels[i].price == price && Shows(r, price, levels[i].qty);
        assert Shows(b', levels[i].price, levels[i].qty);
      }
    }
    Extensional(r, b');
  }

  lemma Extensional(a: Side, b: Side)
    requires forall price :: SameAt(a, b, price)
    ensures a == b
  {
    forall price ensures price in a <==> price in b { assert SameAt(a, b, price); }
    forall price | price in a ensures a[price] == b[price] { assert SameAt(a, b, price); }
  }

  lemma {:induction false} FromLevelsAt(levels: seq<Level>, price: real)
    ensures price in FromLevels(levels) <==> Lists(levels, price)
    ensures price in FromLevels(levels) ==>
              exists i :: 0 <= i < |levels| && levels[i].price == price && levels[i].qty == FromLevels(levels)[price]
  {
    if levels != [] {
      var n := |levels| - 1;
      FromLevelsAt(levels[..n], price);
      if Lists(levels[..n], price) {
        var i :| 0 <= i < |levels[..n]| && levels[..n][i].price == price;
        assert levels[i].price == price;
      }
      if levels[n].price != price && price in FromLevels(levels) {
        var i :| 0 <= i < n && levels[..n][i].price == price && levels[..n][i].qty == FromLevels(levels[..n])[price];
        assert levels[i].price == price && levels[i].qty == FromLevels(levels)[price];
      }
      if Lists(levels, price) && levels[n].price != price {
        var i :| 0 <= i < |levels| && levels[i].price == price;
        assert levels[..n][i].price == price;
      }
    }
  }

  lemma SnapshotGivesBook(levels: seq<Level>, b: Side)
    requires FullDepth(levels, b)
    ensures FromLevels(levels) == b
  {
    var r := FromLevels(levels);
    forall price ensures SameAt(r, b, price) { FromLevelsAt(levels, price); }
    Extensional(r, b);
  }

  /** A delta applied to a book it does not start from gives the right book exactly when it also
      describes the way from there. */
  lemma DeltaGivesIff(levels: seq<Level>, b: Side, b': Side, from: Side)
    requires Describes(levels, from, b')
    ensures ApplyDelta(b, levels) == b' <==> Describes(levels, b, b')
  {
    if ApplyDelta(b, levels) == b' {
      forall price | !Lists(levels, price) ensures SameAt(b, b', price) { UpsertAt(b, levels, price); }
    }
    if Describes(levels, b, b') { DeltaGivesNext(levels, b, b'); }
  }

  /** Exactly which messages keep a mirror in sync: all of them, except that a mirror numbered zero
      takes any delta, and is right only if that delta leads on from where it is. */
  lemma ReceiveKeepsSyncIff(h: seq<Book>, m: Mirror, msg: Message)
    requires Genuine(h, msg) && InSync(h, m)
    ensures var k := msg.sequence;
            InSync(h, Receive(m, msg)) <==>
            (msg.Delta? && m.sequence == 0 ==> Describes(msg.bids, h[0].bids, h[k].bids) && Describes(msg.asks, h[0].asks, h[k].asks))
  {
    hide ApplyDelta, FromLevels, Describes, FullDepth;
    var k := msg.sequence;
    if !msg.Delta? {
      SnapshotTaken(h, m, msg);
    } else if m.sequence == 0 {
      DeltaGivesIff(msg.bids, m.bids, h[k].bids, h[k - 1].bids);
      DeltaGivesIff(msg.asks, m.asks, h[k].asks, h[k - 1].asks);
    } else {
      DeltaGivesNext(msg.bids, h[k - 1].bids, h[k].bids);
      DeltaGivesNext(msg.asks, h[k - 1].asks, h[k].asks);
    }
  }

  /** A snapshot puts any mirror in sync. */
  lemma SnapshotTaken(h: seq<Book>, m: Mirror, msg: Message)
    requires Genuine(h, msg) && !msg.Delta?
    ensures InSync(h, Receive(m, msg))
  {
    SnapshotGivesBook(msg.bids, h[msg.sequence].bids);
    SnapshotGivesBook(msg.asks, h[msg.sequence].asks);
  }

  // ---- The guard at sequence zero ------------------------------------------------------

  /** The one case in which a message may be taken out of turn. */
  predicate OutOfTurn(m: Mirror, msg: Message) {
    msg.Delta? && m.sequence == 0 && msg.sequence != 1
  }

  lemma ReceiveKeepsSync(h: seq<Book>, m: Mirror, msg: Message)
    requires Genuine(h, msg) && InSync(h, m) && !OutOfTurn(m, msg)
    ensures InSync(h, Receive(m, msg))
  {
    ReceiveKeepsSyncIff(h, m, msg);
  }

  /** No price is listed with two different quantities. */
  predicate Consistent(levels: seq<Level>) {
    forall i, j | 0 <= i < j < |levels| && levels[i].price == levels[j].price :: levels[i].qty == levels[j].qty
  }

  lemma ConsistentDescribes(b: Side, levels: seq<Level>)
    requires Consistent(levels)
    ensures Describes(levels, b, ApplyDelta(b, levels))
  {
    hide ApplyDelta;
    var r := ApplyDelta(b, levels);
    forall i | 0 <= i < |levels| ensures Shows(r, levels[i].price, levels[i].qty) {
      UpsertAt(b, levels, levels[i].price);
      assert Lists(levels, levels[i].price);
      var j :| 0 <= j < |levels| && levels[j].price == levels[i].price && Shows(r, levels[i].price, levels[j].qty);
      assert levels[j].qty == levels[i].qty;
    }
    forall price | !Lists(levels, price) ensures SameAt(b, r, price) { UpsertAt(b, levels, price); }
  }

  /** Some price is neither held nor listed. */
  lemma {:induction false} UnusedPrice(used: set<real>) returns (p: real)
    ensures p !in used && forall q | q in used :: q < p
    decreases |used|
  {
    p := 0.0;
    if q :| q in used {
      var r := UnusedPrice(used - {q});
      p := if q < r then r else q + 1.0;
      forall x | x in used ensures x < p { assert x == q || x in used - {q}; }
    }
  }

  lemma UnusedBy(b: Side, levels: seq<Level>) returns (p: real)
    ensures p !in b && !Lists(levels, p)
  {
    var listed := set i | 0 <= i < |levels| :: levels[i].price;
    p := UnusedPrice(b.Keys + listed);
    forall i | 0 <= i < |levels| ensures levels[i].price != p { assert levels[i].price in listed; }
  }

  /** Any other delta taken at sequence zero may go wrong: there is a history that starts at the
      mirror's book and contains the delta, in which a level came up in between. */
  lemma OutOfTurnMayFail(m: Mirror, msg: Message) returns (h: seq<Book>)
    requires m.sequence == 0 && msg.Delta? && msg.sequence >= 2 && Consistent(msg.bids) && Consistent(msg.asks)
    ensures InSync(h, m) && Genuine(h, msg) && !InSync(h, Receive(m, msg))
  {
    hide ApplyDelta;
    var k := msg.sequence;
    var p := UnusedBy(m.bids, msg.bids);
    var middle := Book(m.bids[p := 1.0], m.asks);
    var last := Book(ApplyDelta(middle.bids, msg.bids), ApplyDelta(m.asks, msg.asks));
    h := [Book(m.bids, m.asks)] + seq(k - 1, _ => middle) + [last];
    assert h[k - 1] == middle && h[k] == last;
    ConsistentDescribes(middle.bids, msg.bids);
    ConsistentDescribes(middle.asks, msg.asks);
    UpsertAt(middle.bids, msg.bids, p);
    UpsertAt(m.bids, msg.bids, p);
    assert p in last.bids && p !in ApplyDelta(m.bids, msg.bids);
  }

  /** At sequence zero a delta is safe, whatever the history, exactly when it is number one. */
  lemma SafeAtZeroIff(m: Mirror, msg: Message)
    requires m.sequence == 0 && msg.Delta? && msg.sequence > 0 && Consistent(msg.bids) && Consistent(msg.asks)
    ensures (forall h | InSync(h, m) && Genuine(h, msg) :: InSync(h, Receive(m, msg))) <==> msg.sequence == 1
  {
    hide Receive, Genuine, InSync;
    if msg.sequence == 1 {
      forall h | InSync(h, m) && Genuine(h, msg) ensures InSync(h, Receive(m, msg)) { ReceiveKeepsSync(h, m, msg); }
    } else {
      var h := OutOfTurnMayFail(m, msg);
    }
  }

  // ---- Whole histories -----------------------------------------------------------------

  function ReceiveAll(m: Mirror, msgs: seq<Message>): Mirror {
    if msgs == [] then m else Receive(ReceiveAll(m, msgs[..|msgs| - 1]), msgs[|msgs| - 1])
  }

  ghost predicate AllGenuine(h: seq<Book>, msgs: seq<Message>) {
    forall i | 0 <= i < |msgs| :: Genuine(h, msgs[i])
  }

  /** No delta is taken out of turn. */
  predicate InTurn(m: Mirror, msgs: seq<Message>) {
    forall i | 0 <= i < |msgs| :: !OutOfTurn(ReceiveAll(m, msgs[..i]), msgs[i])
  }

  /** Main result: a mirror that shows the server's book goes on showing it, at whatever sequence it
      has recorded, after any messages in any order, with any of them missing or repeated, provided
      that none is taken out of turn at sequence zero. */
  lemma {:induction false} MirrorStaysInSync(h: seq<Book>, m: Mirror, msgs: seq<Message>)
    requires InSync(h, m) && AllGenuine(h, msgs) && InTurn(m, msgs)
    ensures InSync(h, ReceiveAll(m, msgs))
  {
    hide Receive, Genuine, InSync, OutOfTurn;
    if msgs != [] {
      var n := |msgs| - 1;
      assert InTurn(m, msgs[..n]) by {
        forall i | 0 <= i < n ensures !OutOfTurn(ReceiveAll(m, msgs[..n][..i]), msgs[..n][i]) { assert msgs[..n][..i] == msgs[..i]; }
      }
      MirrorStaysInSync(h, m, msgs[..n]);
      ReceiveKeepsSync(h, ReceiveAll(m, msgs[..n]), msgs[n]);
    }
  }

  /** In particular a client that has just connected to a market without history: its empty maps
      numbered zero show the server's first book. */
  lemma FreshClientInSync(h: seq<Book>, msgs: seq<Message>)
    requires h != [] && h[0] == Book(map[], map[]) && AllGenuine(h, msgs) && InTurn(Mirror(map[], map[], 0), msgs)
    ensures InSync(h, ReceiveAll(Mirror(map[], map[], 0), msgs))
  {
    MirrorStaysInSync(h, Mirror(map[], map[], 0), msgs);
  }

  /** And any client once one snapshot with a nonzero number is in, as long as later ones have a
      nonzero number as well: then nothing can be out of turn. */
  lemma MirrorInSync(h: seq<Book>, m: Mirror, first: Message, msgs: seq<Message>)
    requires !first.Delta? && first.sequence > 0 && Genuine(h, first)
    requires AllGenuine(h, msgs) && forall i | 0 <= i < |msgs| :: msgs[i].sequence > 0
    ensures InSync(h, ReceiveAll(Receive(m, first), msgs))
  {
    hide InSync;
    SnapshotTaken(h, m, first);
    forall i | 0 <= i < |msgs| ensures !OutOfTurn(ReceiveAll(Receive(m, first), msgs[..i]), msgs[i]) {
      StaysNumbered(Receive(m, first), msgs[..i]);
    }
    MirrorStaysInSync(h, Receive(m, first), msgs);
  }

  lemma {:induction false} StaysNumbered(m: Mirror, msgs: seq<Message>)
    requires m.sequence > 0 && forall i | 0 <= i < |msgs| :: msgs[i].sequence > 0
    ensures ReceiveAll(m, msgs).sequence > 0
  {
    if msgs != [] { StaysNumbered(m, msgs[..|msgs| - 1]); }
  }

  // ---- Catching up ---------------------------------------------------------------------

  /** The delta that is next in turn moves a mirror in sync on to the server's next book. */
  lemma DeltaAdvances(h: seq<Book>, m: Mirror, msg: Message)
    requires InSync(h, m) && Genuine(h, msg) && msg.Delta? && msg.sequence == m.sequence + 1
    ensures Receive(m, msg) == Mirror(h[m.sequence + 1].bids, h[m.sequence + 1].asks, m.sequence + 1)
  {
    hide ApplyDelta, Describes;
    DeltaGivesNext(msg.bids, m.bids, h[msg.sequence].bids);
    DeltaGivesNext(msg.asks, m.asks, h[msg.sequence].asks);
  }

  /** All deltas of `msgs` are there for the numbers after `s` up to `n`, at the places `at`, in turn;
      between them there may be any others. */
  predicate Carries(msgs: seq<Message>, at: seq<nat>, s: nat, n: nat) {
    && |at| == n - s
    && (forall k | 0 <= k < |at| :: at[k] < |msgs| && msgs[at[k]].Delta? && msgs[at[k]].sequence == s + 1 + k)
    && (forall k | 0 < k < |at| :: at[k - 1] < at[k])
  }

  predicate OnlyDeltas(msgs: seq<Message>, n: nat) {
    forall i | 0 <= i < |msgs| :: msgs[i].Delta? && msgs[i].sequence <= n
  }

  lemma DeltaMoves(m: Mirror, msg: Message, n: nat)
    requires msg.Delta? && msg.sequence <= n && m.sequence <= n
    ensures m.sequence <= Receive(m, msg).sequence <= n
    ensures m.sequence + 1 >= msg.sequence ==> Receive(m, msg).sequence >= msg.sequence
  {}

  lemma {:induction false} DeltasMove(m: Mirror, msgs: seq<Message>, i: nat, n: nat)
    requires OnlyDeltas(msgs, n) && i <= |msgs| && m.sequence <= n
    ensures ReceiveAll(m, msgs[..i]).sequence <= ReceiveAll(m, msgs).sequence <= n
    decreases |msgs|
  {
    hide Receive;
    if i == |msgs| {
      assert msgs[..i] == msgs;
      if i > 0 {
        DeltasMove(m, msgs[..i - 1], i - 1, n);
        DeltaMoves(ReceiveAll(m, msgs[..i - 1]), msgs[i - 1], n);
      }
    } else {
      var last := |msgs| - 1;
      DeltasMove(m, msgs[..last], i, n);
      assert msgs[..last][..i] == msgs[..i];
      DeltaMoves(ReceiveAll(m, msgs[..last]), msgs[last], n);
    }
  }

  lemma {:induction false} Reaches(m: Mirror, msgs: seq<Message>, at: seq<nat>, n: nat, k: nat)
    requires OnlyDeltas(msgs, n) && m.sequence <= n && Carries(msgs, at, m.sequence, n) && k < |at|
    ensures ReceiveAll(m, msgs[..at[k] + 1]).sequence >= m.sequence + 1 + k
    decreases k
  {
    hide Receive;
    var i := at[k];
    var before := msgs[..i];
    assert msgs[..i + 1][..i] == before && msgs[..i + 1][i] == msgs[i];
    if k > 0 {
      Reaches(m, msgs, at, n, k - 1);
      DeltasMove(m, before, at[k - 1] + 1, n);
      assert before[..at[k - 1] + 1] == msgs[..at[k - 1] + 1];
    }
    DeltasMove(m, before, 0, n);
    assert before[..0] == [];
    DeltaMoves(ReceiveAll(m, before), msgs[i], n);
  }

  /** Main result: a mirror in sync that receives every delta up to `n` in order ends at number `n`
      with the server's book, however many repeated or early ones come in between, as long as none is
      taken out of turn at sequence zero. */
  lemma CatchesUp(h: seq<Book>, m: Mirror, msgs: seq<Message>, at: seq<nat>, n: nat)
    requires InSync(h, m) && AllGenuine(h, msgs) && InTurn(m, msgs) && OnlyDeltas(msgs, n)
    requires m.sequence <= n < |h| && Carries(msgs, at, m.sequence, n)
    ensures ReceiveAll(m, msgs) == Mirror(h[n].bids, h[n].asks, n)
  {
    hide Receive, Genuine, OutOfTurn, Carries, ReceiveAll, OnlyDeltas;
    MirrorStaysInSync(h, m, msgs);
    DeltasMove(m, msgs, 0, n);
    CarriesLast(m, msgs, at, n);
  }

  lemma CarriesLast(m: Mirror, msgs: seq<Message>, at: seq<nat>, n: nat)
    requires OnlyDeltas(msgs, n) && m.sequence <= n && Carries(msgs, at, m.sequence, n)
    ensures ReceiveAll(m, msgs).sequence == n
  {
    hide Receive;
    DeltasMove(m, msgs, 0, n);
    assert msgs[..0] == [];
    if at != [] {
      Reaches(m, msgs, at, n, |at| - 1);
      DeltasMove(m, msgs, at[|at| - 1] + 1, n);
    }
  }

  /** The object, fed any such messages. */
  method Follow(book: LiveOrderbook, msgs: seq<Message>, ghost h: seq<Book>)
    requires InSync(h, book.View()) && AllGenuine(h, msgs) && InTurn(book.View(), msgs)
    modifies book
    ensures book.View() == ReceiveAll(old(book.View()), msgs) && InSync(h, book.View())
  {
    hide Receive, InSync, Genuine, OutOfTurn;
    ghost var start := book.View();
    for i := 0 to |msgs|
      invariant book.View() == ReceiveAll(start, msgs[..i])
    {
      assert msgs[..i + 1][..i] == msgs[..i];
      book.OnMessage(msgs[i]);
    }
    assert msgs[..|msgs|] == msgs;
    MirrorStaysInSync(h, start, msgs);
  }

  /** Out of turn, in numbers: an empty client at zero takes delta 2 and misses the level of delta 1. */
  lemma ZeroSnapshotIsNotEnough()
    ensures var h := [Book(map[], map[]), Book(map[1.0 := 5.0], map[]), Book(map[1.0 := 5.0, 2.0 := 7.0], map[])];
            var m := Receive(Mirror(map[], map[], 0), Snapshot(0, [], []));
            var late := Delta(2, [Level(2.0, 7.0)], []);
            InSync(h, m) && Genuine(h, late) && OutOfTurn(m, late) && !InSync(h, Receive(m, late))
  {
    var h := [Book(map[], map[]), Book(map[1.0 := 5.0], map[]), Book(map[1.0 := 5.0, 2.0 := 7.0], map[])];
    var levels := [Level(2.0, 7.0)];
    assert levels[0].price == 2.0 && Lists(levels, 2.0);
    assert levels[1..] == [];
    assert ApplyDelta(map[], levels) == map[2.0 := 7.0];
    assert 1.0 !in ApplyDelta(map[], levels) && 1.0 in h[2].bids;
  }
}
