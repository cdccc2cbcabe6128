/** The host side of the command ring, as the driver runs it, with the device running beside it. */
module NvrmFifo {
  import opened CommandRing

  const FLAG := 0x8000_0000

  /** The channel: the shared buffers, the doorbell register and the device's own state. `Run` is
  called at every point where the device may get ahead; how far it gets is arbitrary. */
  class Channel {
    const base: nat
    const pbMap: array<Word>
    const ibMap: array<Word>
    var ibPut: nat
    var fetched: nat
    var at: nat
    var left: nat
    var read: seq<Word>

    constructor (base: nat)
      ensures fresh(pbMap) && fresh(ibMap) && this.base == base
      ensures pbMap.Length == 0x10000 && ibMap.Length == 2 * 1024
      ensures ibPut == fetched == left == 0 && read == []
    {
      this.base := base;
      pbMap := new Word[WORDS];
      ibMap := new Word[2 * ENTRIES];
      ibPut, fetched, at, left, read := 0, 0, 0, 0, [];
    }

    ghost function View(): Bus
      reads this, pbMap, ibMap
    {
      Bus(base, pbMap[..], ibMap[..], ibPut, fetched, at, left, read)
    }

    method Step()
      requires Fits(View())
      modifies this
      ensures View() == DeviceStep(old(View()))
    {
      if left > 0 {
        var offset := at - base;
        var word: Word := if 0 <= offset < PB_SIZE then pbMap[offset / 4] else 0;
        read, at, left := read + [word], at + 4, if left < 4 then 0 else left - 4;
      } else if ibPut != EntrySlot(fetched) {
        var slot := 2 * EntrySlot(fetched);
        fetched, at, left := fetched + 1, Address(ibMap[slot], ibMap[slot + 1]),
          Length(ibMap[slot], ibMap[slot + 1]);
      }
    }

    method Run(atLeast: nat) returns (ghost n: nat)
      requires Fits(View())
      modifies this
      ensures n >= atLeast && View() == DeviceSteps(old(View()), n)
    {
      var steps :| steps >= atLeast;
      ghost var before := View();
      for i := 0 to steps
        invariant Fits(View()) && DeviceSteps(before, steps) == DeviceSteps(View(), steps - i)
      {
        Step();
      }
      n := steps;
    }

    /** Registers 0x58 and 0x5c: the address of the next word to read. The valid flag in the upper one
    may be missing while that word is the first of the buffer. */
    method ReadLow() returns (lo: Word)
      ensures lo == Low(base + 4 * WordSlot(|read|))
    {
      lo := Low(base + 4 * WordSlot(|read|));
    }

    method ReadHigh() returns (hi: Word)
      ensures hi >= 0x8000_0000 || WordSlot(|read|) == 0
    {
      var flagged: bool := *;
      hi := (base + 4 * WordSlot(|read|)) / LOW % 0x100;
      if flagged || WordSlot(|read|) != 0 {
        hi := FLAG + hi;
      }
    }
  }

  /** Whatever the upper register holds, the driver's 32-bit difference recovers the offset: the two
  registers need not be read at one instant. */
  lemma OffsetRecovered(base: nat, offset: nat, hi: Word)
    requires offset < PB_SIZE
    ensures ((hi * LOW + Low(base + offset)) % ADDRESSES - base) % LOW == offset
  {
    Joined(hi, Low(base + offset));
    SameLow((hi * LOW + Low(base + offset)) % ADDRESSES, base + offset, base);
  }

  lemma Joined(hi: nat, lo: Word)
    ensures (hi * LOW + lo) % ADDRESSES % LOW == lo
  {
    var x := hi * LOW + lo;
    assert x == x / ADDRESSES * ADDRESSES + x % ADDRESSES;
    assert x % ADDRESSES == (hi - x / ADDRESSES * 0x100) * LOW + lo;
  }

  lemma SameLow(x: nat, y: nat, base: nat)
    requires x % LOW == y % LOW && base <= y < base + LOW
    ensures (x - base) % LOW == y - base
  {
  }

  class Fifo {
    const channel: Channel
    var pbPos: nat
    var pbPut: nat
    var pbGet: nat
    var ibPut: nat
    var ibGet: nat
    ghost var history: History
    ghost var seen: nat
    ghost var seenEntries: nat

    ghost function Joint(): State
      reads this, channel, channel.pbMap, channel.ibMap
    {
      State(channel.View(), history, seen, seenEntries)
    }

    ghost predicate Linked()
      reads this, channel, channel.pbMap, channel.ibMap
    {
      && channel.pbMap != channel.ibMap
      && Invariant(Joint())
      && pbPos == 4 * WordSlot(|history.written|)
      && pbGet == 4 * WordSlot(seen)
      && ibPut == EntrySlot(|history.ends|)
      && ibGet == EntrySlot(seenEntries)
    }

    ghost predicate Valid()
      reads this, channel, channel.pbMap, channel.ibMap
    {
      Linked() && pbPut == 4 * WordSlot(Submitted(history))
    }

    ghost function Left(): int
      reads this, channel, channel.pbMap, channel.ibMap
    {
      Work(channel.View(), history)
    }

    constructor (base: nat)
      requires base + PB_SIZE <= ADDRESSES
      ensures Valid() && fresh(channel) && fresh(channel.pbMap) && fresh(channel.ibMap)
      ensures history == History([], []) && channel.read == [] && channel.base == base
    {
      channel := new Channel(base);
      pbPos, pbPut, pbGet, ibPut, ibGet := 0, 0, 0, 0, 0;
      history, seen, seenEntries := History([], []), 0, 0;
    }

    /** The device gets ahead by at least this many steps while the host waits. */
    method Elapse(atLeast: nat)
      requires Linked()
      modifies channel
      ensures Linked()
      ensures channel.pbMap[..] == old(channel.pbMap[..]) && channel.ibMap[..] == old(channel.ibMap[..])
      ensures |channel.read| >= |old(channel.read)|
      ensures 0 <= Left() <= old(Left())
      ensures atLeast > 0 && old(Left()) > 0 ==> Left() < old(Left())
    {
      hide WordSlot, EntrySlot, Unread, Unfetched, WellCut, Cursor;
      StepWorks(channel.View(), history);
      ghost var before := channel.View();
      ghost var n := channel.Run(atLeast);
      DeviceDrains(before, history, n);
    }

    method UpdateGet()
      requires Valid()
      modifies channel, `pbGet, `seen
      ensures Valid()
      ensures old(seen) <= seen
      ensures pbGet == old(pbGet) <==> seen == old(seen)
      ensures seen >= |old(channel.read)|
      ensures channel.pbMap[..] == old(channel.pbMap[..]) && channel.ibMap[..] == old(channel.ibMap[..])
      ensures Left() <= old(Left())
    {
      hide Unread, Unfetched, WellCut, Cursor;
      var lo := channel.ReadLow();
      ghost var atLow := |channel.read|;
      Elapse(0);
      var hi := channel.ReadHigh();
      if hi >= FLAG {
        OffsetRecovered(channel.base, 4 * WordSlot(atLow), hi);
        var mg := (hi * LOW + lo) % ADDRESSES;
        pbGet := (mg - channel.base) % LOW;
        seen := atLow;
      } else {
        pbGet := 0;
        seen := |channel.read|;
      }
      WordSlots(old(seen), seen);
    }

    method Push(address: nat, length: nat, ghost end: nat)
      requires Linked()
      requires Stretch(Submitted(history), end) && end <= |history.written|
      requires address == channel.base + 4 * WordSlot(Submitted(history))
      requires length == 4 * (end - Submitted(history))
      requires channel.base + PB_SIZE <= ADDRESSES
      modifies channel, channel.ibMap, `ibPut, `ibGet, `history, `seenEntries
      ensures Linked()
      ensures history == old(Announced(history, end))
      ensures var i := 2 * old(|history.ends|) % 2048;
        && i + 1 < channel.ibMap.Length == 2048
        && channel.ibMap[i] == address % 0x1_0000_0000
        && channel.ibMap[i + 1] == address / 0x1_0000_0000 + 0x100 * length
        && forall k | 0 <= k < 2048 && k != i && k != i + 1 :: channel.ibMap[k] == old(channel.ibMap[k])
      ensures channel.pbMap[..] == old(channel.pbMap[..])
      ensures |channel.read| >= |old(channel.read)|
    {
      hide WordSlot, EntrySlot, Invariant, Packed;
      var w := Packed(address, length);
      AwaitEntry();
      AddressFits(Submitted(history), end);
      EntryWords(address, length);
      ghost var before := channel.ibMap[..];
      WriteEntry(w, end);
      assert forall k | 0 <= k < 2048 :: before[k] == old(channel.ibMap[k]);
      assert forall k | 0 <= k < 2048 :: channel.ibMap[..][k] == channel.ibMap[k];
    }

    /** The wait for a free entry: ends, because each turn moves the device or the view of it. */
    method AwaitEntry()
      requires Linked()
      modifies channel, `ibGet, `seenEntries
      ensures Linked() && |history.ends| + 1 < seenEntries + ENTRIES
      ensures channel.pbMap[..] == old(channel.pbMap[..]) && channel.ibMap[..] == old(channel.ibMap[..])
      ensures |channel.read| >= |old(channel.read)|
    {
      hide WordSlot, EntrySlot, Linked, Work;
      EntriesMeasured();
      while (ibPut + 1) % ENTRIES == ibGet
        invariant Linked() && seenEntries <= |history.ends| && Left() >= 0
        invariant channel.pbMap[..] == old(channel.pbMap[..]) && channel.ibMap[..] == old(channel.ibMap[..])
        invariant |channel.read| >= |old(channel.read)|
        decreases Left() + |history.ends| - seenEntries
      {
        EntriesMeasured();
        PollEntries();
      }
      EntriesMeasured();
    }

    lemma EntriesMeasured()
      requires Linked()
      ensures (ibPut + 1) % ENTRIES == ibGet <==> |history.ends| + 1 == seenEntries + ENTRIES
      ensures seenEntries <= |history.ends| < seenEntries + ENTRIES && Left() >= 0
    {
      hide WordSlot, EntrySlot, Unread, Unfetched, WellCut, Cursor;
      EntryFullTest(|history.ends|, seenEntries);
      StepWorks(channel.View(), history);
    }

    /** One turn of the wait: reads the device's position, and yields when it has not moved. */
    method PollEntries()
      requires Linked() && |history.ends| + 1 == seenEntries + ENTRIES
      modifies channel, `ibGet, `seenEntries
      ensures Linked() && seenEntries <= |history.ends| && Left() >= 0
      ensures Left() - seenEntries < old(Left()) - old(seenEntries)
      ensures channel.pbMap[..] == old(channel.pbMap[..]) && channel.ibMap[..] == old(channel.ibMap[..])
      ensures |channel.read| >= |old(channel.read)|
    {
      hide WordSlot, EntrySlot, Unread, Unfetched, WellCut, Cursor;
      StepWorks(channel.View(), history);
      var was := ibGet;
      IdleIsDrained(channel.View(), history);
      EntrySlots(seenEntries, channel.fetched);
      ibGet := EntrySlot(channel.fetched);
      seenEntries := channel.fetched;
      Elapse(if was == ibGet then 1 else 0);
    }

    /** The two words of the entry, then the doorbell; the device runs on in between. */
    method WriteEntry(w: nat, ghost end: nat)
      requires Linked()
      requires Stretch(Submitted(history), end) && end <= |history.written|
      requires |history.ends| + 1 < seenEntries + ENTRIES
      requires w == Packed(channel.base + 4 * WordSlot(Submitted(history)), 4 * (end - Submitted(history)))
      requires channel.base + PB_SIZE <= ADDRESSES
      modifies channel, channel.ibMap, `ibPut, `history
      ensures Linked() && channel.ibMap.Length == 2048
      ensures var i := 2 * old(|history.ends|) % 2048;
        i + 1 < 2048 && channel.ibMap[..] == old(channel.ibMap[..])[i := Low(w)][i + 1 := High(w)]
      ensures history == old(Announced(history, end))
      ensures channel.pbMap[..] == old(channel.pbMap[..])
      ensures |channel.read| >= |old(channel.read)|
    {
      hide WordSlot, EntrySlot, Unread, Unfetched, WellCut, Cursor;
      EntryIndex(|history.ends|);
      WriteEntryWord(ibPut * 2, Low(w), false);
      WriteEntryWord(ibPut * 2 + 1, High(w), true);
      Unpacked(channel.base + 4 * WordSlot(Submitted(history)), 4 * (end - Submitted(history)));
      Doorbell(end);
    }

    method WriteEntryWord(i: nat, v: Word, ghost high: bool)
      requires Linked() && |history.ends| + 1 < seenEntries + ENTRIES
      requires i == ibPut * 2 + if high then 1 else 0
      modifies channel, channel.ibMap
      ensures Linked()
      ensures i < channel.ibMap.Length && channel.ibMap[..] == old(channel.ibMap[..])[i := v]
      ensures channel.pbMap[..] == old(channel.pbMap[..])
      ensures |channel.read| >= |old(channel.read)|
    {
      hide WordSlot, EntrySlot, Unread, Unfetched, WellCut, Cursor;
      PutEntryWordKeeps(channel.View(), history, high, v);
      channel.ibMap[i] := v;
      Elapse(0);
    }

    method Doorbell(ghost end: nat)
      requires Linked() && |history.ends| + 1 < seenEntries + ENTRIES
      requires Ready(channel.View(), history, end)
      modifies channel, `ibPut, `history
      ensures Linked() && channel.ibMap[..] == old(channel.ibMap[..])
      ensures history == old(Announced(history, end))
      ensures channel.pbMap[..] == old(channel.pbMap[..])
      ensures |channel.read| >= |old(channel.read)|
    {
      hide WordSlot, EntrySlot, Unread, Unfetched, WellCut, Cursor;
      AnnounceKeeps(channel.View(), history, end);
      NextEntry(|history.ends|);
      ibPut := (ibPut + 1) % ENTRIES;
      channel.ibPut := ibPut;
      history := Announced(history, end);
    }

    method FireRing()
      requires Valid() && channel.base + PB_SIZE <= ADDRESSES
      modifies channel, channel.ibMap, `pbPut, `ibPut, `ibGet, `history, `seenEntries
      ensures Valid()
      ensures history.written == old(history.written) && Submitted(history) == |history.written|
      ensures old(history.ends) <= history.ends && |history.ends| <= |old(history.ends)| + 2
      ensures old(Stretch(Submitted(history), |history.written|))
        ==> history == old(Announced(history, |history.written|))
      ensures |old(history.written)| == old(Submitted(history)) ==> history == old(history)
      ensures |old(history.written)| == old(Submitted(history)) ==> channel.View() == old(channel.View())
      ensures channel.pbMap[..] == old(channel.pbMap[..])
      ensures |channel.read| >= |old(channel.read)|
    {
      hide EntrySlot, Unread, Unfetched, Cursor, Work;
      IdleIsDrained(channel.View(), history);
      Pending(Submitted(history), |history.written|, pbPut, pbPos);
      if pbPos != pbPut {
        ghost var first, end := Submitted(history), |history.written|;
        var address := channel.base + pbPut;
        var length: nat;
        if pbPos > pbPut {
          length := pbPos - pbPut;
        } else {
          length := PB_SIZE - pbPut;
          Push(address, length, end - pbPos / 4);
          pbPut := 0;
          address := channel.base;
          length := pbPos;
        }
        if length > 0 {
          Push(address, length, end);
        }
        pbPut := pbPos;
      }
    }

    ghost predicate Full()
      reads this
    {
      |history.written| + 1 == seen + WORDS
    }

    /** One turn of the wait: submit what is pending, poll, and yield when nothing moved. */
    method AwaitSpace()
      requires Valid() && channel.base + PB_SIZE <= ADDRESSES && Full()
      modifies channel, channel.ibMap, `pbPut, `pbGet, `ibPut, `ibGet, `history, `seen, `seenEntries
      ensures Valid()
      ensures history.written == old(history.written) && old(history.ends) <= history.ends
      ensures Submitted(history) == |history.written| && seen <= |history.written| && Left() >= 0
      ensures old(Submitted(history)) == |history.written| ==> Left() - seen < old(Left()) - old(seen)
      ensures channel.pbMap[..] == old(channel.pbMap[..])
      ensures |channel.read| >= |old(channel.read)|
    {
      hide WordSlot, EntrySlot, Unread, Unfetched, WellCut, Cursor;
      StepWorks(channel.View(), history);
      var was := pbGet;
      FireRing();
      UpdateGet();
      if was == pbGet {
        IdleIsDrained(channel.View(), history);
        Elapse(1);
      }
    }

    method OutRing(word: Word)
      requires Valid() && channel.base + PB_SIZE <= ADDRESSES
      modifies this, channel, channel.pbMap, channel.ibMap
      ensures Valid()
      ensures history.written == old(history.written) + [word]
      ensures old(history.ends) <= history.ends
      ensures |channel.read| >= |old(channel.read)|
    {
      hide WordSlot, EntrySlot, Linked, Work;
      Measured();
      while (pbPos + 4) % PB_SIZE == pbGet
        invariant Valid() && history.written == old(history.written) && old(history.ends) <= history.ends
        invariant channel.pbMap[..] == old(channel.pbMap[..]) && |channel.read| >= |old(channel.read)|
        invariant Submitted(history) <= |history.written| && seen <= |history.written| && Left() >= 0
        decreases |history.written| - Submitted(history), Left() + |history.written| - seen
      {
        Measured();
        AwaitSpace();
      }
      Measured();
      Append(word);
    }

    lemma Measured()
      requires Valid()
      ensures (pbPos + 4) % PB_SIZE == pbGet <==> Full()
      ensures Submitted(history) <= |history.written| && seen <= |history.written| && Left() >= 0
    {
      hide WordSlot, EntrySlot, Unread, Unfetched, Cursor;
      FullTest(|history.written|, seen);
      StepWorks(channel.View(), history);
    }

    method Append(word: Word)
      requires Valid() && !Full()
      modifies `pbPos, `history, channel.pbMap
      ensures Valid()
      ensures history == old(Wrote(history, word))
      ensures channel.read == old(channel.read)
    {
      hide WordSlot, EntrySlot, Unread, Unfetched, WellCut, Cursor;
      PutWordKeeps(channel.View(), history, word);
      NextOffset(|history.written|);
      channel.pbMap[pbPos / 4] := word;
      pbPos := pbPos + 4;
      pbPos := pbPos % PB_SIZE;
      history := Wrote(history, word);
    }
  }

  lemma AddressFits(first: nat, end: nat)
    requires Stretch(first, end)
    ensures 4 * WordSlot(first) < PB_SIZE && 4 * (end - first) <= PB_SIZE
  {
  }

  /** What the two byte offsets say about the words not yet submitted. */
  lemma Pending(first: nat, end: nat, put: nat, pos: nat)
    requires first <= end < first + WORDS && put == 4 * WordSlot(first) && pos == 4 * WordSlot(end)
    ensures pos == put <==> first == end
    ensures pos >= put ==> pos - put == 4 * (end - first)
    ensures pos < put ==> PB_SIZE - put + pos == 4 * (end - first) && (end - pos / 4) % WORDS == 0
  {
    WordSlots(first, end);
  }
}
