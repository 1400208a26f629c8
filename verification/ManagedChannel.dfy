/**
 A stream channel with an overflow policy, written by one writer at a time while readers go on
 reading between the writer's attempts.
 */
module ManagedChannels {
  import opened Prelude

  type Message = string

  datatype Overflow = Block | DropNew | DropOldest | ErrorOnFull

  datatype WriteResult =
    | Sent
    | DroppedOld          // sent, after the oldest buffered message was dropped
    | DroppedNew
    | Rejected
    | FilledAgain         // no room although a message was just dropped
    | NothingToDrop       // no room, and no buffered message to drop
    | ContextDone
    | StillWaiting        // the blocking send has not returned

  /** What the readers do between two attempts: take buffered messages, then some of them wait for more. */
  datatype Readers = Readers(take: nat, wait: nat)

  /** The indexes are strictly increasing. */
  ghost predicate Increasing(s: seq<nat>) {
    forall i, j :: 0 <= i < j < |s| ==> s[i] < s[j]
  }

  /** out is the part of written at the indexes kept, in order. */
  ghost predicate IsSubsequence(out: seq<Message>, kept: seq<nat>, written: seq<Message>) {
    && Increasing(kept) && |kept| == |out|
    && forall i :: 0 <= i < |kept| ==> kept[i] < |written| && out[i] == written[kept[i]]
  }

  predicate IsBelow(i: nat, n: nat) {
    i < n
  }

  function Indexes(n: nat): set<nat> {
    set i: nat | i < n && IsBelow(i, n)
  }

  class ManagedChannel {
    const capacity: nat
    const policy: Overflow
    var buffer: seq<Message>
    var waiting: nat               // readers blocked on the empty channel
    ghost var delivered: seq<Message>
    ghost var written: seq<Message>
    ghost var kept: seq<nat>       // which of the written messages were delivered or are buffered
    ghost var lost: set<nat>       // and which were dropped or refused

    constructor (capacity: nat, policy: Overflow)
      ensures Valid() && this.capacity == capacity && this.policy == policy && written == [] && buffer == []
      ensures waiting == 0
    {
      this.capacity, this.policy := capacity, policy;
      buffer, waiting, delivered, written, kept, lost := [], 0, [], [], [], {};
    }

    /**
     The buffer is within its capacity, readers wait only on an empty channel, and the messages
     delivered and buffered are an order-preserving part of those written; the others are lost.
     */
    ghost predicate Valid()
      reads this
    {
      && |buffer| <= capacity && (waiting > 0 ==> buffer == [])
      && IsSubsequence(delivered + buffer, kept, written)
      && lost == Indexes(|written|) - Elements(kept)
    }

    predicate HasRoom()
      reads this
    {
      |buffer| < capacity || waiting > 0
    }

    /** Readers take messages in order, and may end up waiting if nothing is left. */
    method ReadersMove(m: Readers)
      requires Valid()
      modifies this`buffer, this`waiting, this`delivered
      ensures Valid()
      ensures var n := if m.take < |old(buffer)| then m.take else |old(buffer)|;
        && buffer == old(buffer)[n..] && delivered == old(delivered) + old(buffer)[..n]
        && waiting == if buffer == [] then m.wait else 0
    {
      var n := if m.take < |buffer| then m.take else |buffer|;
      delivered := delivered + buffer[..n];
      assert delivered + buffer[n..] == old(delivered + buffer);
      buffer := buffer[n..];
      waiting := if buffer == [] then m.wait else 0;
    }

    /** A send that does not block: handed to a waiting reader, or buffered if there is room. */
    method TrySend(data: Message) returns (ok: bool)
      requires Valid()
      modifies this
      ensures ok <==> old(|buffer|) < capacity || old(waiting) > 0
      ensures ok ==> Valid() && Accepted(old(written), old(kept), old(lost), data)
      ensures ok ==> delivered + buffer == old(delivered + buffer) + [data]
      ensures !ok ==>
        buffer == old(buffer) && waiting == old(waiting) && delivered == old(delivered) && written == old(written)
      ensures !ok ==> kept == old(kept) && lost == old(lost)
    {
      if waiting > 0 {
        waiting := waiting - 1;
        delivered := delivered + [data];
        ok := true;
      } else if |buffer| < capacity {
        assert delivered + (buffer + [data]) == (delivered + buffer) + [data];
        buffer := buffer + [data];
        ok := true;
      } else {
        return false;
      }
      kept, written := kept + [|written|], written + [data];
      KeptStep(old(kept), |old(written)|);
    }

    /** The new message was kept, as the last of those kept so far; nothing else was written or lost. */
    ghost predicate Accepted(written0: seq<Message>, kept0: seq<nat>, lost0: set<nat>, data: Message)
      reads this
    {
      written == written0 + [data] && kept == kept0 + [|written0|] && lost == lost0
    }

    /** The writer takes the oldest buffered message out to make room. */
    method TryDropOldest() returns (ok: bool)
      requires Valid()
      modifies this`buffer, this`kept, this`lost
      ensures Valid() && (ok <==> |old(buffer)| > 0)
      ensures ok ==> buffer == old(buffer)[1..]
      ensures ok ==>
        kept == old(kept)[..|delivered|] + old(kept)[|delivered| + 1..] && lost == old(lost) + {old(kept)[|delivered|]}
      ensures !ok ==> buffer == old(buffer) && kept == old(kept) && lost == old(lost)
    {
      if |buffer| == 0 {
        return false;
      }
      ghost var d := |delivered|;
      KeptWithout(kept, d, |written|);
      lost := lost + {kept[d]};
      kept := kept[..d] + kept[d + 1..];
      buffer := buffer[1..];
      assert delivered + buffer == old(delivered + buffer)[..d] + old(delivered + buffer)[d + 1..];
      ok := true;
    }

    /** A message that is refused counts as written and lost. */
    ghost method Refuse(data: Message)
      requires Valid()
      modifies this`written, this`lost
      ensures Valid() && Refused(old(written), old(kept), old(lost), data)
    {
      RefusedStep(kept, |written|);
      lost, written := lost + {|written|}, written + [data];
    }

    ghost predicate Refused(written0: seq<Message>, kept0: seq<nat>, lost0: set<nat>, data: Message)
      reads this
    {
      written == written0 + [data] && kept == kept0 && lost == lost0 + {|written0|}
    }

    /**
     One write. The readers move by first and second between the attempts of drop_oldest; done says
     whether the context has ended, and pick which ready case a select with both cases ready takes.
     With room the message is always sent, except that a finished context may win the race where it is
     looked at. Without room drop_oldest still enqueues the newest message on a buffered channel.
     */
    method Write(data: Message, done: bool, pick: bool, first: Readers, second: Readers) returns (r: WriteResult)
      requires Valid()
      modifies this
      ensures Valid()
      ensures r == Outcome(policy, capacity, old(|buffer|), old(HasRoom()), done, pick, first, second)
      ensures r == ContextDone ==> done
      ensures old(HasRoom()) && !done ==> r == Sent
      ensures policy == Block ==> r in {Sent, ContextDone, StillWaiting} && (!done ==> lost == old(lost))
      ensures policy == Block && !old(HasRoom()) ==> r == if done then ContextDone else StillWaiting
      ensures policy == DropNew ==> r == if old(HasRoom()) then Sent else DroppedNew
      ensures policy == ErrorOnFull ==> r == if old(HasRoom()) then Sent else Rejected
      ensures policy == DropOldest ==> r in {Sent, DroppedOld, ContextDone, NothingToDrop}
      ensures policy == DropOldest ==> (r == DroppedOld <==> !old(HasRoom()) && first.take < |old(buffer)|)
      ensures policy == DropOldest && old(HasRoom()) ==> r == Sent
      ensures policy == DropOldest && !old(HasRoom()) && r == Sent ==> capacity > 0 || second.wait > 0
      ensures policy == DropOldest && r == NothingToDrop ==> !done && capacity == 0 && second.wait == 0
      ensures old(HasRoom()) && pick ==> r == Sent
      ensures r == StillWaiting ==> written == old(written) && kept == old(kept) && lost == old(lost)
      ensures r == Sent ==> Accepted(old(written), old(kept), old(lost), data)
      ensures r == DroppedOld ==>
        var oldest := |old(delivered)| + first.take;
        && oldest < |old(kept)| && written == old(written) + [data] && lost == old(lost) + {old(kept)[oldest]}
        && kept == old(kept)[..oldest] + old(kept)[oldest + 1..] + [|old(written)|]
      ensures r != StillWaiting && r != Sent && r != DroppedOld ==> Refused(old(written), old(kept), old(lost), data)
    {
      match policy {
        case DropNew =>
          var ok := TrySend(data);
          if ok { return Sent; }
          Refuse(data);
          return DroppedNew;
        case ErrorOnFull =>
          var ok := TrySend(data);
          if ok { return Sent; }
          Refuse(data);
          return Rejected;
        case DropOldest =>
          var ok := TrySend(data);
          if ok { return Sent; }
          r := MakeRoom(data, done, pick, first, second);
        case Block =>
          if HasRoom() && (pick || !done) {
            var ok := TrySend(data);
            return Sent;
          }
          if done {
            Refuse(data);
            return ContextDone;
          }
          return StillWaiting;
      }
    }

    /**
     Messages written one after the other under the policy block, with the context alive. The readers move
     between the attempts, and a blocked send is attempted again after they have. Nothing is ever lost: the
     messages sent are kept in order behind those from before, and the next one waits only while there is
     no room.
     */
    method WriteAll(messages: seq<Message>, moves: seq<Readers>, picks: nat -> bool) returns (sent: nat)
      requires Valid() && policy == Block
      modifies this
      ensures Valid() && sent <= |messages| && lost == old(lost)
      ensures written == old(written) + messages[..sent]
      ensures delivered + buffer == old(delivered + buffer) + messages[..sent]
      ensures old(lost) == {} ==> delivered + buffer == written
    {
      sent := 0;
      for i := 0 to |moves|
        invariant Valid() && sent <= |messages| && lost == old(lost)
        invariant written == old(written) + messages[..sent]
        invariant delivered + buffer == old(delivered + buffer) + messages[..sent]
      {
        if sent < |messages| {
          var r := WriteNext(messages[sent], picks(i));
          if r { sent := sent + 1; }
        }
        ReadersMove(moves[i]);
        assert delivered + buffer == old(delivered + buffer) + messages[..sent];
      }
      NothingLost(delivered + buffer, kept, written, lost);
    }

    /** One attempt under the policy block, with the context alive. */
    method WriteNext(data: Message, pick: bool) returns (sent: bool)
      requires Valid() && policy == Block
      modifies this
      ensures Valid() && lost == old(lost) && (sent <==> old(|buffer|) < capacity || old(waiting) > 0)
      ensures written == if sent then old(written) + [data] else old(written)
      ensures delivered + buffer == if sent then old(delivered + buffer) + [data] else old(delivered + buffer)
    {
      var r := Write(data, false, pick, Readers(0, 0), Readers(0, 0));
      sent := r == Sent;
      if sent {
        KeptGrows(old(delivered + buffer), delivered + buffer, old(kept), old(written), data);
      } else {
        KeptSame(old(delivered + buffer), delivered + buffer, kept, written);
      }
    }

    /**
     The second step of drop_oldest: the readers have moved, the oldest message of those left is taken out,
     and the readers move again.
     */
    method DropOne(first: Readers, second: Readers) returns (dropped: bool)
      requires Valid() && !HasRoom()
      modifies this`buffer, this`waiting, this`delivered, this`kept, this`lost
      ensures Valid() && (dropped <==> first.take < |old(buffer)|)
      ensures dropped ==>
        var oldest := |old(delivered)| + first.take;
        && oldest < |old(kept)| && lost == old(lost) + {old(kept)[oldest]}
        && kept == old(kept)[..oldest] + old(kept)[oldest + 1..]
      ensures !dropped ==> kept == old(kept) && lost == old(lost)
      ensures HasRoom() <==> dropped || capacity > 0 || second.wait > 0
    {
      ReadersMove(first);
      dropped := TryDropOldest();
      ReadersMove(second);
    }

    /** The rest of drop_oldest, when the first attempt found no room. */
    method MakeRoom(data: Message, done: bool, pick: bool, first: Readers, second: Readers) returns (r: WriteResult)
      requires Valid() && !HasRoom()
      modifies this
      ensures Valid()
      ensures r == Outcome(DropOldest, capacity, old(|buffer|), false, done, pick, first, second)
      ensures r == Sent ==> Accepted(old(written), old(kept), old(lost), data)
      ensures r == DroppedOld ==>
        var oldest := |old(delivered)| + first.take;
        && oldest < |old(kept)| && written == old(written) + [data] && lost == old(lost) + {old(kept)[oldest]}
        && kept == old(kept)[..oldest] + old(kept)[oldest + 1..] + [|old(written)|]
      ensures r != Sent && r != DroppedOld ==> Refused(old(written), old(kept), old(lost), data)
    {
      var dropped := DropOne(first, second);
      if dropped {
        var ok := TrySend(data);
        return if ok then DroppedOld else FilledAgain;
      }
      if HasRoom() && (pick || !done) {
        var ok := TrySend(data);
        return Sent;
      }
      Refuse(data);
      r := if done then ContextDone else NothingToDrop;
    }
  }

  /** What a write reports, by policy, for a channel of the given capacity holding so many messages. */
  function Outcome(policy: Overflow, capacity: nat, buffered: nat, room: bool, done: bool, pick: bool, first: Readers,
                   second: Readers): WriteResult {
    match policy
    case Block => if room && (pick || !done) then Sent else if done then ContextDone else StillWaiting
    case DropNew => if room then Sent else DroppedNew
    case ErrorOnFull => if room then Sent else Rejected
    case DropOldest =>
      if room then Sent
      else if first.take < buffered then DroppedOld
      else if (capacity > 0 || second.wait > 0) && (pick || !done) then Sent
      else if done then ContextDone
      else NothingToDrop
  }

  /**
   Under drop_oldest the newest message is always enqueued unless the context ended, and neither
   failure is reported, exactly on channels with a buffer: on an unbuffered channel that nobody reads it
   is refused.
   */
  lemma NewestIsEnqueued(capacity: nat)
    ensures (forall buffered: nat, room, pick, first, second ::
              buffered <= capacity && (!room ==> buffered == capacity) ==>
        Outcome(DropOldest, capacity, buffered, room, false, pick, first, second) in {Sent, DroppedOld}) <==>
          capacity > 0
    ensures forall buffered: nat, room, done, pick, first, second ::
      capacity > 0 && (!room ==> buffered == capacity) ==>
      Outcome(DropOldest, capacity, buffered, room, done, pick, first, second) in {Sent, DroppedOld, ContextDone}
  {
    assert Outcome(DropOldest, 0, 0, false, false, true, Readers(0, 0), Readers(0, 0)) == NothingToDrop;
  }

  lemma KeptGrows(out: seq<Message>, out': seq<Message>, kept: seq<nat>, written: seq<Message>, data: Message)
    requires IsSubsequence(out, kept, written)
    requires IsSubsequence(out', kept + [|written|], written + [data])
    ensures out' == out + [data]
  {
  }

  lemma KeptSame(out: seq<Message>, out': seq<Message>, kept: seq<nat>, written: seq<Message>)
    requires IsSubsequence(out, kept, written) && IsSubsequence(out', kept, written)
    ensures out' == out
  {
  }

  /** With nothing lost, everything written is kept. */
  lemma NothingLost(out: seq<Message>, kept: seq<nat>, written: seq<Message>, lost: set<nat>)
    requires IsSubsequence(out, kept, written) && lost == Indexes(|written|) - Elements(kept)
    ensures lost == {} ==> out == written
  {
    if lost == {} {
      Conservation(out, kept, written, lost);
      forall i | 0 <= i < |kept| ensures kept[i] == i { AllKept(kept, |written|, i); }
    }
  }

  /** As many increasing indexes as there are numbers below n are all of them. */
  lemma AllKept(kept: seq<nat>, n: nat, i: nat)
    requires Increasing(kept) && |kept| == n && i < n && forall j :: 0 <= j < n ==> kept[j] < n
    ensures kept[i] == i
  {
    AtLeast(kept, i);
    AtMost(kept, n, i);
  }

  lemma {:induction false} AtLeast(kept: seq<nat>, i: nat)
    requires Increasing(kept) && i < |kept|
    ensures kept[i] >= i
  {
    if i > 0 { AtLeast(kept, i - 1); }
  }

  lemma {:induction false} AtMost(kept: seq<nat>, n: nat, i: nat)
    requires Increasing(kept) && |kept| == n && i < n && forall j :: 0 <= j < n ==> kept[j] < n
    ensures kept[i] <= i
    decreases n - i
  {
    if i + 1 < n { AtMost(kept, n, i + 1); }
  }

  lemma KeptStep(kept: seq<nat>, n: nat)
    requires forall i :: 0 <= i < |kept| ==> kept[i] < n
    ensures Indexes(n + 1) - Elements(kept + [n]) == Indexes(n) - Elements(kept)
  {
  }

  lemma RefusedStep(kept: seq<nat>, n: nat)
    requires forall i :: 0 <= i < |kept| ==> kept[i] < n
    ensures Indexes(n + 1) - Elements(kept) == Indexes(n) - Elements(kept) + {n}
  {
  }

  lemma KeptWithout(kept: seq<nat>, d: nat, n: nat)
    requires Increasing(kept) && d < |kept| && forall i :: 0 <= i < |kept| ==> kept[i] < n
    ensures Indexes(n) - Elements(kept[..d] + kept[d + 1..]) == Indexes(n) - Elements(kept) + {kept[d]}
  {
  }

  lemma {:induction false} IncreasingCard(kept: seq<nat>)
    requires Increasing(kept)
    ensures |Elements(kept)| == |kept|
  {
    if kept == [] {
      assert Elements(kept) == {};
    } else {
      var init, last := kept[..|kept| - 1], kept[|kept| - 1];
      IncreasingCard(init);
      assert Elements(kept) == Elements(init) + {last};
      assert last !in Elements(init);
    }
  }

  lemma {:induction false} IndexesCard(n: nat)
    ensures |Indexes(n)| == n
  {
    if n > 0 {
      IndexesCard(n - 1);
      assert Indexes(n) == Indexes(n - 1) + {n - 1};
    }
  }

  /** Conservation: every message written was delivered, is buffered, or was lost, and only one of these. */
  lemma Conservation(out: seq<Message>, kept: seq<nat>, written: seq<Message>, lost: set<nat>)
    requires IsSubsequence(out, kept, written) && lost == Indexes(|written|) - Elements(kept)
    ensures |written| == |out| + |lost|
  {
    IncreasingCard(kept);
    IndexesCard(|written|);
    assert Elements(kept) <= Indexes(|written|);
    assert Indexes(|written|) == Elements(kept) + lost && Elements(kept) !! lost;
  }
}
