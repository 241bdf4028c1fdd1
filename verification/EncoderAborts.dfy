/** When the encoder aborts: behind the two length bytes of an empty client id, or in front of a packet that is
    too long for its Remaining Length. */
module EncoderAborts {
  import opened Types
  import opened PacketStore
  import opened Wire
  import opened Transmit
  import opened TransmitRuns

  /** The first entry from `i` on that is too long; the length of the queue if there is none. */
  function FirstTooLong(s: StoreState, i: nat): (k: nat)
    requires UnsentWellFormed(s) && s.pos <= i <= |s.entries|
    ensures i <= k <= |s.entries| && (k < |s.entries| ==> !Encodable(s.entries[k]))
    ensures forall j :: i <= j < k ==> Encodable(s.entries[j])
    decreases |s.entries| - i
  {
    if i == |s.entries| || !Encodable(s.entries[i]) then i else FirstTooLong(s, i + 1)
  }

  function TooLong(w: TxWorld): nat
    requires UnsentWellFormed(w.store)
  {
    FirstTooLong(w.store, w.store.pos)
  }

  /** The queue without the entries from `k` on. */
  function Cut(w: TxWorld, k: nat): TxWorld
    requires k <= |w.store.entries|
  {
    w.(store := w.store.(entries := w.store.entries[..k]))
  }

  predicate NoDisconnect(s: StoreState, k: nat)
    requires s.pos <= k <= |s.entries|
  {
    forall i :: s.pos <= i < k ==> !s.entries[i].kind.Disconnect?
  }

  /** Once a header was built, its packet is not too long. */
  predicate HeaderPassed(w: TxWorld)
    requires UnsentWellFormed(w.store)
  {
    !w.tx.closed && w.tx.error.None? && w.store.HasCurrent()
      && (w.tx.pos > 0 || w.tx.offset > 0 || w.tx.built.Some?) ==>
      Encodable(w.store.Current())
  }

  /** The call has room for everything in front of a packet that is too long. */
  ghost predicate Reaches(w: TxWorld, room: nat)
    requires TxValid(w)
  {
    var k := TooLong(w);
    && k < |w.store.entries| && !w.tx.closed && NoDisconnect(w.store, k)
    && TxValid(Cut(w, k)) && |Pending(Cut(w, k))| <= room
  }

  lemma CutIsValid(w: TxWorld, k: nat)
    requires TxValid(w) && w.store.pos < k <= |w.store.entries|
    ensures TxValid(Cut(w, k)) && Cut(w, k).store.HasCurrent() && Cut(w, k).store.Current() == w.store.Current()
    ensures CurrentFields(Cut(w, k)) == CurrentFields(w)
  {
    hide Fields, WellFormed, FieldBytes;
  }

  /** The encodable packet in front is a packet of the cut queue as well. */
  lemma TooLongIsLater(w: TxWorld)
    requires UnsentWellFormed(w.store) && w.store.HasCurrent() && Encodable(w.store.Current())
    ensures TooLong(w) > w.store.pos
  {
    hide WellFormed, Encodable;
  }

  lemma {:induction false} SameFirst(s: StoreState, i: nat, t: StoreState, j: nat)
    requires UnsentWellFormed(s) && s.pos <= i <= |s.entries| && UnsentWellFormed(t) && t.pos <= j <= |t.entries|
    requires t.entries[j..] == s.entries[i..]
    ensures FirstTooLong(t, j) - j == FirstTooLong(s, i) - i
    decreases |s.entries| - i
  {
    hide WellFormed, Encodable;
    assert |t.entries[j..]| == |s.entries[i..]|;
    if i < |s.entries| {
      assert t.entries[j] == t.entries[j..][0] && s.entries[i] == s.entries[i..][0];
      if Encodable(s.entries[i]) {
        assert t.entries[j + 1..] == t.entries[j..][1..] && s.entries[i + 1..] == s.entries[i..][1..];
        SameFirst(s, i + 1, t, j + 1);
      }
    }
  }

  /** Finishing the entry at the cursor finishes it in the cut queue, too. */
  lemma FinishCut(env: Env, w: TxWorld, k: nat)
    requires UnsentWellFormed(w.store) && w.store.HasCurrent() && w.store.pos < k <= |w.store.entries|
    ensures UnsentWellFormed(Cut(w, k).store) && Cut(w, k).store.HasCurrent()
    ensures var next, j := FinishEntry(env, w), if ExpectsResponse(w.store.Current().kind) then k else k - 1;
            && next.store.pos <= j <= |next.store.entries| && FinishEntry(env, Cut(w, k)) == Cut(next, j)
            && next.store.entries[next.store.pos..] == w.store.entries[w.store.pos + 1..]
            && j - next.store.pos == k - w.store.pos - 1
  {
    hide Fields, WellFormed;
    var e, p := w.store.entries, w.store.pos;
    assert e[..k][..p] + e[..k][p + 1..] == (e[..p] + e[p + 1..])[..k - 1];
  }

  lemma FinishReaches(env: Env, w: TxWorld, room: nat)
    requires TxValid(w) && !w.tx.closed && w.tx.error.None? && w.store.HasCurrent() && HeaderPassed(w)
    requires w.tx.pos == |CurrentFields(w)| && FinishEntry(env, w).tx.error.None?
    ensures var next := FinishEntry(env, w);
            && TxValid(next) && HeaderPassed(next)
            && (if next.tx.closed then !Reaches(w, room) else Reaches(next, room) == Reaches(w, room))
  {
    hide Fields, FieldsBytes, WellFormed, Encodable, FinishEntry, Pending, OffsetValid, Stream;
    FinishEntryKeepsPending(env, w);
    var next, k := FinishEntry(env, w), TooLong(w);
    TooLongIsLater(w);
    CutIsValid(w, k);
    FinishCut(env, w, k);
    FinishEntryKeepsPending(env, Cut(w, k));
    FinishRests(env, w);
    SameFirst(w.store, w.store.pos + 1, next.store, next.store.pos);
    NextDisconnect(w, next, k);
  }

  lemma FinishRests(env: Env, w: TxWorld)
    requires UnsentWellFormed(w.store) && w.store.HasCurrent() && !w.tx.closed && w.tx.error.None?
    ensures var next := FinishEntry(env, w);
            && (next.tx.closed <==> w.store.Current().kind.Disconnect?)
            && (!next.tx.closed && next.tx.error.None? ==> next.tx == RESET_TX)
            && (next.tx.error.Some? ==> next.tx.error == Some(CallbackPublish))
  {
    hide WellFormed;
  }

  lemma NextDisconnect(w: TxWorld, next: TxWorld, k: nat)
    requires w.store.Valid() && next.store.Valid() && w.store.HasCurrent() && w.store.pos < k <= |w.store.entries|
    requires next.store.entries[next.store.pos..] == w.store.entries[w.store.pos + 1..]
    ensures var j := next.store.pos + (k - w.store.pos - 1);
            && j <= |next.store.entries|
            && (NoDisconnect(w.store, k) <==> !w.store.Current().kind.Disconnect? && NoDisconnect(next.store, j))
  {
    var j := next.store.pos + (k - w.store.pos - 1);
    assert |next.store.entries[next.store.pos..]| == |w.store.entries[w.store.pos + 1..]|;
    assert forall i :: next.store.pos <= i < j ==>
        next.store.entries[i] == w.store.entries[w.store.pos + 1..][i - next.store.pos];
    assert forall i :: w.store.pos < i < k ==>
        w.store.entries[i] == next.store.entries[next.store.pos..][i - w.store.pos - 1];
  }

  lemma NextFieldReaches(w: TxWorld, room: nat)
    requires TxValid(w) && !w.tx.closed && w.tx.error.None? && w.store.HasCurrent() && w.tx.pos < |CurrentFields(w)|
    requires Encodable(w.store.Current())
    ensures var f := CurrentFields(w)[w.tx.pos];
            var next := w.(tx := w.tx.(pos := w.tx.pos + 1, offset := 0, built := None));
            && TxValid(next) && HeaderPassed(next)
            && w.tx.offset <= |FieldBytes(f)|
            && (Reaches(w, room) <==>
                  |FieldBytes(f)| - w.tx.offset <= room && Reaches(next, room - (|FieldBytes(f)| - w.tx.offset)))
  {
    hide Fields, FieldsBytes, FieldBytes, WellFormed, Encodable, Pending, OffsetValid, Stream;
    NextFieldPending(w);
    TooLongIsLater(w);
    CutIsValid(w, TooLong(w));
    NextFieldPending(Cut(w, TooLong(w)));
    OffsetFits(w);
  }

  lemma OffsetFits(w: TxWorld)
    requires TxValid(w) && !w.tx.closed && w.tx.error.None? && w.store.HasCurrent() && w.tx.pos < |CurrentFields(w)|
    ensures w.tx.offset <= |FieldBytes(CurrentFields(w)[w.tx.pos])|
  {
    hide Fields, WellFormed, U16Bytes;
  }

  /** A field begun at its start is finished, or it does not fit. */
  lemma FieldStartFits(w: TxWorld, room: nat)
    requires TxValid(w) && !w.tx.closed && w.tx.error.None? && w.store.HasCurrent() && w.tx.offset == 0
    requires w.tx.pos < |CurrentFields(w)|
    ensures var f := ActiveField(w);
            var (result, count) := FieldStep(f, 0, room);
            && f == CurrentFields(w)[w.tx.pos] && !result.Aborted?
            && (result.Finished? ==> count == |FieldBytes(f)| <= room) && (result.Continue? ==> |FieldBytes(f)| > room)
  {
    hide Fields, WellFormed, U16Bytes;
    ActiveFieldSlices(w, room);
  }

  lemma HeaderReaches(w: TxWorld, room: nat)
    requires TxValid(w) && !w.tx.closed && w.tx.error.None? && w.store.HasCurrent() && HeaderPassed(w)
    ensures w.tx.pos < |CurrentFields(w)| && HeaderAborts(w) ==> Reaches(w, room)
    ensures w.tx.pos >= |CurrentFields(w)| || !HeaderAborts(w) ==> Encodable(w.store.Current())
  {
    hide Fields, WellFormed, Encodable, FieldBytes;
  }

  predicate KnownError(error: Option<Error>) { error.None? || error.value.AssertionFailed?
    || error.value.CallbackPublish? }

  lemma {:induction false} FieldStartAborts(env: Env, w: TxWorld, room: nat)
    requires TxValid(w) && w.tx.error.None? && w.tx.offset == 0 && HeaderPassed(w)
    ensures var error := EncodeLoop(env, w, room).world.tx.error;
            KnownError(error) && (error == Some(AssertionFailed) <==>
                Reaches(w, room) && error != Some(CallbackPublish))
    decreases |w.store.entries| - w.store.pos,
              if w.store.HasCurrent() && w.tx.pos < |CurrentFields(w)| then |CurrentFields(w)| - w.tx.pos else 0
  {
    hide Fields, FieldsBytes, FieldBytes, WellFormed, FinishEntry, Encodable, FieldStep, ActiveField, HeaderAborts,
         Stream,
         Reaches, HeaderPassed, Pending;
    if w.tx.closed || !w.store.HasCurrent() {
      NothingReached(w, room);
    } else {
      HeaderReaches(w, room);
      if w.tx.pos >= |CurrentFields(w)| {
        FinishRests(env, w);
        var next := FinishEntry(env, w);
        if next.tx.error.None? {
          FinishReaches(env, w, room);
          if next.tx.closed {
            assert EncodeLoop(env, next, room).world == next;
          } else {
            FieldStartAborts(env, next, room);
          }
        }
      } else if !HeaderAborts(w) {
        FieldStartFits(w, room);
        NextFieldReaches(w, room);
        var (result, count) := FieldStep(ActiveField(w), 0, room);
        if result.Finished? {
          FieldStartAborts(env, w.(tx := w.tx.(pos := w.tx.pos + 1, offset := 0, built := None)), room - count);
        }
      }
    }
  }

  lemma NothingReached(w: TxWorld, room: nat)
    requires TxValid(w) && (w.tx.closed || !w.store.HasCurrent())
    ensures !Reaches(w, room)
  {
    hide Fields, WellFormed, Encodable, Pending;
  }

  /** When a call aborts, for every queue: exactly when it resumes behind the two length bytes of an empty
      client id, or reaches a packet that is too long. It reaches one when there is room for everything in
      front of it and neither DISCONNECT nor a refusing callback comes first; between the two length bytes
      of an empty client id one byte of room does not do. */
  lemma WhenEncodingAborts(env: Env, w: TxWorld, room: nat)
    requires TxValid(w) && w.tx.error.None? && HeaderPassed(w) && room > 0
    ensures var error := EncodeLoop(env, w, room).world.tx.error;
            error == Some(AssertionFailed) <==>
              Stuck(w) || (Reaches(w, room) && error != Some(CallbackPublish) && !(HalfLength(w) && room == 1))
  {
    hide Fields, FieldsBytes, FieldBytes, WellFormed, FinishEntry, Encodable, Reaches, HeaderPassed, Pending, Stream;
    if w.tx.offset == 0 {
      FieldStartAborts(env, w, room);
    } else if w.tx.closed || !w.store.HasCurrent() {
      NothingReached(w, room);
    } else {
      OffsetInside(w);
      HeaderReaches(w, room);
      ActiveFieldSlices(w, room);
      if !HeaderAborts(w) {
        NextFieldReaches(w, room);
        FieldContinues(w, room);
        var (result, count) := FieldStep(ActiveField(w), w.tx.offset, room);
        if result.Finished? {
          FieldStartAborts(env, w.(tx := w.tx.(pos := w.tx.pos + 1, offset := 0, built := None)), room - count);
        }
      }
    }
  }

  lemma OffsetInside(w: TxWorld)
    requires TxValid(w) && !w.tx.closed && w.tx.error.None? && w.store.HasCurrent() && w.tx.offset > 0
    ensures w.tx.pos < |CurrentFields(w)|
  {
    hide Fields, WellFormed, FieldBytes;
  }

  lemma FieldContinues(w: TxWorld, room: nat)
    requires TxValid(w) && !w.tx.closed && w.tx.error.None? && w.store.HasCurrent()
    requires w.tx.pos < |CurrentFields(w)| && w.tx.offset > 0 && room > 0
    ensures var f := ActiveField(w);
            var (result, count) := FieldStep(f, w.tx.offset, room);
            && (result.Finished? ==> count == |FieldBytes(f)| - w.tx.offset <= room)
            && (result.Continue? ==> |FieldBytes(f)| - w.tx.offset > room || (HalfLength(w) && room == 1))
            && (HalfLength(w) && room == 1 ==> result.Continue?)
  {
    hide Fields, WellFormed, U16Bytes;
    ActiveFieldSlices(w, room);
  }

  // ----- a header is only built for packets that fit -----

  lemma {:induction false} CallKeepsPassed(env: Env, w: TxWorld, room: nat)
    requires TxValid(w) && w.tx.error.None? && HeaderPassed(w)
    ensures HeaderPassed(EncodeLoop(env, w, room).world)
    decreases |w.store.entries| - w.store.pos,
              if w.store.HasCurrent() && w.tx.pos < |CurrentFields(w)| then |CurrentFields(w)| - w.tx.pos else 0
  {
    hide Fields, FieldsBytes, FieldBytes, WellFormed, FinishEntry, Encodable, FieldStep, Stream, Pending;
    if !w.tx.closed && w.store.HasCurrent() {
      if w.tx.pos >= |CurrentFields(w)| {
        FinishEntryKeepsPending(env, w);
        FinishRests(env, w);
        var next := FinishEntry(env, w);
        if next.tx.error.None? { CallKeepsPassed(env, next, room); }
      } else if !HeaderAborts(w) {
        ActiveFieldSlices(w, room);
        var (result, count) := FieldStep(ActiveField(w), w.tx.offset, room);
        if result.Finished? {
          NextFieldPending(w);
          CallKeepsPassed(env, w.(tx := w.tx.(pos := w.tx.pos + 1, offset := 0, built := None)), room - count);
        }
      }
    }
  }

  lemma StepKeepsPassed(env: Env, w: TxWorld, op: TxOp)
    requires TxValid(w) && OpValid(op) && HeaderPassed(w)
    ensures TxValid(TxStep(env, w, op).world) && HeaderPassed(TxStep(env, w, op).world)
  {
    hide Fields, WellFormed, FieldsBytes, Encodable, EncodeLoop, OffsetValid;
    TxStepKeepsValid(env, w, op);
    match op {
      case Call(room) => if w.tx.error.None? { CallKeepsPassed(env, w, room); }
      case Enqueue(e) =>
      case Respond(kind, id) => RespondKeepsCurrent(w, kind, id);
    }
  }

  /** In every run of the encoder from rest a header was only built for a packet that is not too long, so
      `WhenEncodingAborts` says of every call of every run when it aborts. */
  lemma {:induction false} RunKeepsPassed(env: Env, w: TxWorld, ops: seq<TxOp>)
    requires TxValid(w) && (w.tx == RESET_TX || HeaderPassed(w)) && forall i :: 0 <= i < |ops| ==> OpValid(ops[i])
    ensures TxValid(RunTx(env, w, ops).world) && HeaderPassed(RunTx(env, w, ops).world)
    decreases |ops|
  {
    hide TxStep, OpValid, Encodable, OffsetValid, WellFormed, Fields;
    if ops != [] {
      StepKeepsPassed(env, w, ops[0]);
      RunKeepsPassed(env, TxStep(env, w, ops[0]).world, ops[1..]);
    }
  }
}
