/** What becomes of the entries that a call of the encoder sends: which ones stay and wait, what is reported, and
    what is remembered for DUP. */
module Departures {
  import opened Types
  import opened Wire
  import opened Transmit
  import opened TransmitRuns

  /** The requests that stay in the store until their response: CONNECT, PUBLISH of QoS 1 and 2, PUBREL,
      SUBSCRIBE, UNSUBSCRIBE and PINGREQ. */
  function Waiting(es: seq<Entry>): seq<Entry>
  {
    if es == [] then []
    else
      match es[0].kind
      case Publish0 => Waiting(es[1..])
      case Puback => Waiting(es[1..])
      case Pubrec => Waiting(es[1..])
      case Pubcomp => Waiting(es[1..])
      case Disconnect => Waiting(es[1..])
      case _ => [es[0]] + Waiting(es[1..])
  }

  /** What sending reports: a QoS 0 message is complete when it is sent, with success. */
  function Reported(es: seq<Entry>): seq<Event>
  {
    if es == [] then []
    else
      [Emitted(es[0].kind, es[0].value.packetId)]
      + (if es[0].kind.Publish0? then [Completed(Publish0, es[0].value, true)] else [])
      + Reported(es[1..])
  }

  /** The requests of the messages among them. */
  function Published(es: seq<Entry>): multiset<nat>
  {
    if es == [] then multiset{}
    else
      (if es[0].kind.Publish0? || es[0].kind.Publish1?
        || es[0].kind.Publish2? then multiset{es[0].value.ref} else multiset{})
      + Published(es[1..])
  }

  /** From `w` to `v` exactly the entries `es` were sent, taken from the front of the unsent ones. */
  ghost predicate Sends(w: TxWorld, v: TxWorld, es: seq<Entry>)
    requires w.store.Valid()
  {
    && v.store.Valid() && Unsent(w) == es + Unsent(v)
    && v.store.entries[..v.store.pos] == w.store.entries[..w.store.pos] + Waiting(es)
    && v.log == w.log + Reported(es) && v.encodes == w.encodes + Published(es)
  }

  lemma {:induction false} WaitingConcat(a: seq<Entry>, b: seq<Entry>)
    ensures Waiting(a + b) == Waiting(a) + Waiting(b)
  {
    if a == [] {
      assert a + b == b;
    } else {
      assert (a + b)[0] == a[0] && (a + b)[1..] == a[1..] + b;
      WaitingConcat(a[1..], b);
    }
  }

  lemma {:induction false} ReportedConcat(a: seq<Entry>, b: seq<Entry>)
    ensures Reported(a + b) == Reported(a) + Reported(b)
  {
    if a == [] {
      assert a + b == b;
    } else {
      assert (a + b)[0] == a[0] && (a + b)[1..] == a[1..] + b;
      ReportedConcat(a[1..], b);
      var head := [Emitted(a[0].kind, a[0].value.packetId)]
                  + (if a[0].kind.Publish0? then [Completed(Publish0, a[0].value, true)] else []);
      assert head + (Reported(a[1..]) + Reported(b)) == head + Reported(a[1..]) + Reported(b);
    }
  }

  lemma {:induction false} PublishedConcat(a: seq<Entry>, b: seq<Entry>)
    ensures Published(a + b) == Published(a) + Published(b)
  {
    if a == [] {
      assert a + b == b;
    } else {
      assert (a + b)[0] == a[0] && (a + b)[1..] == a[1..] + b;
      PublishedConcat(a[1..], b);
    }
  }

  lemma Concat(a: seq<Entry>, b: seq<Entry>)
    ensures Waiting(a + b) == Waiting(a) + Waiting(b) && Reported(a + b) == Reported(a) + Reported(b)
    ensures Published(a + b) == Published(a) + Published(b)
  {
    WaitingConcat(a, b);
    ReportedConcat(a, b);
    PublishedConcat(a, b);
  }

  lemma SendsTwice(w: TxWorld, v: TxWorld, x: TxWorld, a: seq<Entry>, b: seq<Entry>)
    requires w.store.Valid() && Sends(w, v, a) && Sends(v, x, b)
    ensures Sends(w, x, a + b)
  {
    Concat(a, b);
    hide Waiting, Reported, Published;
    assert w.store.entries[..w.store.pos] + Waiting(a) + Waiting(b)
        == w.store.entries[..w.store.pos] + (Waiting(a) + Waiting(b));
  }

  lemma SendsNothing(w: TxWorld, v: TxWorld)
    requires w.store.Valid() && v.store == w.store && v.log == w.log && v.encodes == w.encodes
    ensures Sends(w, v, [])
  {
  }

  lemma OneSent(e: Entry)
    ensures Waiting([e]) == (if ExpectsResponse(e.kind) then [e] else [])
    ensures Published([e]) == if IsPublish(e.kind) then multiset{e.value.ref} else multiset{}
    ensures Reported([e])
            == [Emitted(e.kind, e.value.packetId)] + if e.kind.Publish0? then [Completed(Publish0, e.value, true)]
              else []
  {
    assert [e][1..] == [];
  }

  lemma FinishSends(env: Env, w: TxWorld)
    requires UnsentWellFormed(w.store) && w.store.HasCurrent() && !w.tx.closed && w.tx.error.None?
    ensures var v, e := FinishEntry(env, w), w.store.Current();
            && Sends(w, v, [e])
            && (v.tx.closed <==> e.kind.Disconnect?)
            && (v.tx.error.None? || v.tx.error == Some(CallbackPublish))
            && (v.tx.error.Some? <==> e.kind.Publish0? && !env.accept(v.log))
  {
    hide Waiting, Reported, Published;
    var e, p := w.store.entries, w.store.pos;
    OneSent(w.store.Current());
    if !ExpectsResponse(w.store.Current().kind) { BodyOfKind(w.store.Current()); }
    assert Unsent(w) == [e[p]] + e[p + 1..];
    assert (e[..p] + e[p + 1..])[p..] == e[p + 1..] && (e[..p] + e[p + 1..])[..p] == e[..p];
    assert e[..p + 1] == e[..p] + [e[p]];
  }

  lemma BodyOfKind(e: Entry)
    requires WellFormed(e) && !ExpectsResponse(e.kind)
    ensures e.value.body.NoBody? <==> !e.kind.Publish0?
  {
    hide ValidPublish;
  }

  /** How a call ends: without an error; with the refused callback of the last message it sent; or with the
      assertion. Whatever was closed stays closed, and only a DISCONNECT closes. */
  ghost predicate CallEnds(env: Env, w: TxWorld, v: TxWorld, es: seq<Entry>)
  {
    && (v.tx.error.None? || v.tx.error == Some(AssertionFailed) || v.tx.error == Some(CallbackPublish))
    && (v.tx.error == Some(CallbackPublish) <==> es != [] && es[|es| - 1].kind.Publish0? && !env.accept(v.log))
    && (v.tx.closed <==> w.tx.closed || (es != [] && es[|es| - 1].kind.Disconnect?))
    && forall i :: 0 <= i < |es| - 1 ==> !es[i].kind.Disconnect?
  }

  /** One call, whatever room it gets and however it ends, sends some entries from the front of the unsent
      ones, and that decides everything else: those that wait for a response move in front of the cursor, the
      others leave; each is reported in order, QoS 0 messages as complete; each message counts as sent. */
  lemma {:induction false} CallSends(env: Env, w: TxWorld, room: nat) returns (es: seq<Entry>)
    requires UnsentWellFormed(w.store) && w.tx.error.None?
    ensures var v := EncodeLoop(env, w, room).world; Sends(w, v, es) && CallEnds(env, w, v, es)
    decreases |w.store.entries| - w.store.pos,
              if w.store.HasCurrent() && w.tx.pos < |CurrentFields(w)| then |CurrentFields(w)| - w.tx.pos else 0
  {
    hide Fields, WellFormed, FieldBytes, FinishEntry, FieldStep, Encodable, Sends, Waiting, Reported, Published;
    if w.tx.closed || !w.store.HasCurrent() {
      es := [];
      SendsNothing(w, w);
    } else if w.tx.pos >= |CurrentFields(w)| {
      var next := FinishEntry(env, w);
      FinishSends(env, w);
      es := [w.store.Current()];
      if next.tx.error.None? && !next.tx.closed {
        var rest := CallSends(env, next, room);
        SendsTwice(w, next, EncodeLoop(env, next, room).world, es, rest);
        LogOnlyGrows(env, next, EncodeLoop(env, next, room).world, es, rest);
        es := es + rest;
      }
    } else if HeaderAborts(w) {
      es := [];
      SendsNothing(w, EncodeLoop(env, w, room).world);
    } else {
      var (result, count) := FieldStep(ActiveField(w), w.tx.offset, room);
      if result.Finished? {
        var next := w.(tx := w.tx.(pos := w.tx.pos + 1, offset := 0, built := None));
        es := CallSends(env, next, if count <= room then room - count else 0);
        SendsNothing(w, next);
        SendsTwice(w, next, EncodeLoop(env, next, if count <= room then room - count else 0).world, [], es);
        assert [] + es == es;
      } else {
        es := [];
        SendsNothing(w, EncodeLoop(env, w, room).world);
      }
    }
  }

  /** Whether the refused callback is the last one does not depend on what was sent before. */
  lemma LogOnlyGrows(env: Env, w: TxWorld, v: TxWorld, es: seq<Entry>, rest: seq<Entry>)
    requires w.tx.error.None? && !w.tx.closed && CallEnds(env, w, v, rest) && |es| == 1 && !es[0].kind.Disconnect?
    requires w.store.Valid() && Sends(w, v, rest) && (es[0].kind.Publish0? ==> env.accept(w.log))
    ensures CallEnds(env, w, v, es + rest)
  {
    if rest == [] { assert v.log == w.log; }
  }
}
