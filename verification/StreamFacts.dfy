/** How the receiver's window turns arriving packets into a readable prefix. */
module StreamFacts {
  import opened MachineWords
  import opened Bytes
  import opened Packets
  import opened ReceiverSpec

  /** Slots that agree in all but the time they were reserved. */
  ghost predicate SameSlot(u: Unread, v: Unread) {
    u.packet == v.packet && u.lost == v.lost && u.bytesRead == v.bytesRead
  }

  lemma {:induction false} ReadingIgnoresTimes(a: seq<Unread>, b: seq<Unread>)
    requires |a| == |b| && forall i :: 0 <= i < |a| ==> SameSlot(a[i], b[i])
    ensures Ready(a) == Ready(b) && Readable(a) == Readable(b)
  {
    if a != [] {
      assert SameSlot(a[0], b[0]);
      forall i | 0 <= i < |a[1..]| ensures SameSlot(a[1..][i], b[1..][i]) {
        assert SameSlot(a[i + 1], b[i + 1]);
      }
      ReadingIgnoresTimes(a[1..], b[1..]);
    }
  }

  /** Slots reserved at the end, for packets yet to come, change nothing at the front. */
  lemma {:induction false} ReadingIgnoresBlanks(items: seq<Unread>, blanks: seq<Unread>)
    requires forall b <- blanks :: b.lost
    ensures Ready(items + blanks) == Ready(items) && Readable(items + blanks) == Readable(items)
  {
    if items == [] {
      assert items + blanks == blanks;
    } else {
      ReadingIgnoresBlanks(items[1..], blanks);
      assert (items + blanks)[1..] == items[1..] + blanks;
    }
  }

  /** Reading takes packets off the front without moving the ack point. */
  lemma {:induction false} DrainKeepsAckPoint(items: seq<Unread>, room: nat)
    ensures |items| - |Drain(items, room).0| + Ready(Drain(items, room).0) == Ready(items)
  {
    if items != [] && !items[0].lost && room != 0 {
      var rest := items[0].Rest();
      var left := Drain(items, room).0;
      if room < |rest| {
        assert left[1..] == items[1..];
      } else {
        DrainKeepsAckPoint(items[1..], room - |rest|);
      }
    }
  }

  /** `left` is the end of `items`, except that its first slot may have been read from. */
  ghost predicate Leaves(items: seq<Unread>, left: seq<Unread>) {
    && |left| <= |items|
    && (left != [] ==> left[0].packet == items[|items| - |left|].packet && left[0].lost == items[|items| - |left|].lost)
    && forall i :: 1 <= i < |left| ==> left[i] == items[|items| - |left| + i]
  }

  lemma LeavesMore(items: seq<Unread>, left: seq<Unread>)
    requires items != [] && Leaves(items[1..], left)
    ensures Leaves(items, left)
  {
    var k := |items| - |left|;
    forall i | 1 <= i < |left| ensures left[i] == items[k + i] {
      assert items[1..][k - 1 + i] == items[k + i];
    }
  }

  /** What reading leaves: the remaining slots, of which only the first may have been read from. */
  lemma {:induction false} DrainLeaves(items: seq<Unread>, room: nat)
    ensures Leaves(items, Drain(items, room).0)
  {
    hide Leaves;
    if items == [] || items[0].lost || room == 0 {
      LeavesAll(items, items);
    } else {
      var rest := items[0].Rest();
      if room < |rest| {
        LeavesAll(items, Drain(items, room).0);
      } else {
        DrainLeaves(items[1..], room - |rest|);
        LeavesMore(items, Drain(items, room).0);
      }
    }
  }

  lemma LeavesAll(items: seq<Unread>, left: seq<Unread>)
    requires |left| == |items|
    requires items != [] ==>
               left[0].packet == items[0].packet && left[0].lost == items[0].lost && left[1..] == items[1..]
    ensures Leaves(items, left)
  {
    forall i | 1 <= i < |left| ensures left[i] == items[i] {
      assert left[i] == left[1..][i - 1] && items[i] == items[1..][i - 1];
    }
  }

  function Filled(items: seq<Unread>, i: nat, packet: DataPacket): seq<Unread>
    requires i < |items|
  {
    items[i := items[i].(packet := packet, lost := false, bytesRead := 0)]
  }

  /** A packet stored behind the first gap changes nothing yet; one stored in it makes all it closes up readable. */
  lemma {:induction false} FillingReads(items: seq<Unread>, i: nat, packet: DataPacket)
    requires i < |items| && items[i].lost
    ensures var now := Filled(items, i, packet);
            if i == Ready(items) then
              && Ready(now) == i + 1 + Ready(items[i + 1..])
              && Readable(now) == Readable(items) + (packet.data + Readable(items[i + 1..]))
            else Ready(now) == Ready(items) && Readable(now) == Readable(items)
  {
    var now := Filled(items, i, packet);
    if i == 0 {
      assert now[1..] == items[1..] && now[0].Rest() == packet.data;
      assert [] + (packet.data + Readable(items[1..])) == packet.data + Readable(items[1..]);
    } else if !items[0].lost {
      FillingReads(items[1..], i - 1, packet);
      assert now[1..] == Filled(items[1..], i - 1, packet);
      assert items[1..][i..] == items[i + 1..];
      Assoc(items[0].Rest(), Readable(items[1..]), packet.data + Readable(items[i + 1..]));
    }
  }

  /** Untouched packets of a log, received without a gap, read as the log's payloads. */
  lemma {:induction false} UntouchedReads(items: seq<Unread>, log: seq<seq<byte>>)
    requires |items| <= |log|
    requires forall i :: 0 <= i < |items| && !items[i].lost ==>
        items[i].packet.data == log[i] && items[i].bytesRead == 0
    ensures Readable(items) == Flatten(log[..Ready(items)])
  {
    if items != [] && !items[0].lost {
      UntouchedReads(items[1..], log[1..]);
      var r := Ready(items);
      assert log[..r][1..] == log[1..][..r - 1];
      assert items[0].Rest() == log[0];
    }
  }
}
