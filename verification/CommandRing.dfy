/** The two-level command ring as a state machine: a ring of words, a ring of packed entries that
announce stretches of words, and a device that fetches entries and reads the words they name.
Counters that the program keeps modulo the ring sizes are unbounded here, so that "read" and
"written" can be compared as plain word streams. */
module CommandRing {
  const PB_SIZE := 0x40000
  const WORDS := 0x10000
  const ENTRIES := 1024
  const ADDRESSES := 0x100_0000_0000
  const LOW := 0x1_0000_0000

  type Word = x: int | 0 <= x < LOW

  /** Where stream position w, and entry k, live in their rings. */
  function WordSlot(w: nat): (r: nat)
    ensures r < WORDS
  {
    w % WORDS
  }

  function EntrySlot(k: nat): (r: nat)
    ensures r < ENTRIES
  {
    k % ENTRIES
  }

  /** An entry: the address in the low 40 bits, the length above, split over two words. */
  function Packed(address: nat, length: nat): nat {
    address + length * ADDRESSES
  }

  function Low(w: nat): Word {
    w % LOW
  }

  function High(w: nat): Word {
    w / LOW % LOW
  }

  function Address(lo: Word, hi: Word): nat {
    (lo + hi * LOW) % ADDRESSES
  }

  function Length(lo: Word, hi: Word): nat {
    (lo + hi * LOW) / ADDRESSES
  }

  lemma Rejoined(w: nat)
    requires w < LOW * LOW
    ensures Low(w) + High(w) * LOW == w
  {
    assert w / LOW < LOW;
  }

  /** What the device decodes is what the host packed, for every 40-bit address and 24-bit length. */
  lemma Unpacked(address: nat, length: nat)
    requires address < ADDRESSES && length < 0x100_0000
    ensures Address(Low(Packed(address, length)), High(Packed(address, length))) == address
    ensures Length(Low(Packed(address, length)), High(Packed(address, length))) == length
  {
    Rejoined(Packed(address, length));
  }

  /** The two words of an entry: the low half of the address, and its upper byte below the length. */
  lemma EntryWords(address: nat, length: nat)
    requires address < 0x100_0000_0000 && length < 0x100_0000
    ensures Low(Packed(address, length)) == address % 0x1_0000_0000
    ensures High(Packed(address, length)) == address / 0x1_0000_0000 + 0x100 * length
  {
    Halves(address % 0x1_0000_0000, address / 0x1_0000_0000 + 0x100 * length);
  }

  lemma Halves(lo: nat, hi: nat)
    requires lo < 0x1_0000_0000 && hi < 0x1_0000_0000
    ensures Low(lo + hi * 0x1_0000_0000) == lo && High(lo + hi * 0x1_0000_0000) == hi
  {
    var w := lo + hi * 0x1_0000_0000;
    assert w % 0x1_0000_0000 == lo && w / 0x1_0000_0000 == hi;
  }

  function Power(n: nat): nat {
    if n == 0 then 1 else 2 * Power(n - 1)
  }

  /** Bitwise "or" of two numbers. */
  function Or(x: nat, y: nat): nat {
    if x == 0 then y else 2 * Or(x / 2, y / 2) + if x % 2 == 1 || y % 2 == 1 then 1 else 0
  }

  /** Bit i of a number. */
  predicate Bit(x: nat, i: nat) {
    if i == 0 then x % 2 == 1 else Bit(x / 2, i - 1)
  }

  lemma {:induction false} OrBits(x: nat, y: nat, i: nat)
    ensures Bit(Or(x, y), i) <==> Bit(x, i) || Bit(y, i)
    decreases i
  {
    if x == 0 {
      NoBits(i);
    } else if i > 0 {
      assert Or(x, y) / 2 == Or(x / 2, y / 2);
      OrBits(x / 2, y / 2, i - 1);
    }
  }

  lemma {:induction false} PowerBits(n: nat, i: nat)
    ensures Bit(Power(n), i) <==> i == n
    decreases n
  {
    if n == 0 {
      if i > 0 { NoBits(i - 1); }
    } else if i > 0 {
      PowerBits(n - 1, i - 1);
    }
  }

  lemma {:induction false} NoBits(i: nat)
    ensures !Bit(0, i)
  {
    if i > 0 {
      NoBits(i - 1);
    }
  }

  lemma {:induction false} OrDisjoint(x: nat, y: nat, n: nat)
    requires x < Power(n)
    ensures Or(x, y * Power(n)) == x + y * Power(n)
    decreases n
  {
    if x > 0 {
      var z := y * Power(n - 1);
      assert y * Power(n) == 2 * z;
      OrDisjoint(x / 2, y, n - 1);
    }
  }

  /** The packed entry is the 64-bit word `address | length << 40`. */
  lemma PackedWord(address: nat, length: nat)
    requires address < 0x100_0000_0000 && length < 0x100_0000
    ensures Packed(address, length) == Or(address, length * Power(40)) < 0x1_0000_0000_0000_0000
  {
    assert Power(8) == 0x100;
    assert Power(16) == 0x100 * Power(8);
    assert Power(24) == 0x100 * Power(16);
    assert Power(32) == 0x100 * Power(24);
    assert Power(40) == 0x100 * Power(32);
    OrDisjoint(address, length, 40);
  }

  /** The same packing with shifts and "or" on 64-bit words: it can be undone for exactly those pairs. */
  lemma PackedBits(address: bv64, length: bv64)
    ensures var w := address | (length << 40);
      w & 0xff_ffff_ffff == address && w >> 40 == length
      <==> address < 0x100_0000_0000 && length < 0x100_0000
    ensures address < 0x100_0000_0000 && length < 0x100_0000
      ==> address | (length << 40) == address + (length << 40)
  {
  }

  /** What both sides share, and the device's own registers. */
  datatype Bus = Bus(base: nat, pb: seq<Word>, ib: seq<Word>, ibPut: nat,
                     fetched: nat, at: nat, left: nat, read: seq<Word>)

  /** The stream the host has written, and where each announced entry ends in it. */
  datatype History = History(written: seq<Word>, ends: seq<nat>)

  predicate Idle(b: Bus) {
    b.left == 0 && b.ibPut == EntrySlot(b.fetched)
  }

  predicate Fits(b: Bus) {
    |b.pb| == WORDS && |b.ib| == 2 * ENTRIES
  }

  /** One bus transaction of the device: read the next word of the current entry, or fetch an entry. */
  function DeviceStep(b: Bus): Bus
    requires Fits(b)
  {
    if b.left > 0 then
      var offset := b.at - b.base;
      var word := if 0 <= offset < PB_SIZE then b.pb[offset / 4] else 0;
      b.(read := b.read + [word], at := b.at + 4, left := if b.left < 4 then 0 else b.left - 4)
    else if b.ibPut != EntrySlot(b.fetched) then
      var slot := 2 * EntrySlot(b.fetched);
      b.(fetched := b.fetched + 1, at := Address(b.ib[slot], b.ib[slot + 1]),
         left := Length(b.ib[slot], b.ib[slot + 1]))
    else b
  }

  function Submitted(h: History): nat {
    if h.ends == [] then 0 else h.ends[|h.ends| - 1]
  }

  /** Where entry k starts in the stream: where its predecessor ends. */
  function Start(h: History, k: nat): nat
    requires k <= |h.ends|
  {
    if k == 0 then 0 else h.ends[k - 1]
  }

  /** A stretch of the stream that does not run over the end of the buffer. */
  predicate Stretch(first: nat, end: nat) {
    first < end && WordSlot(first) + (end - first) <= WORDS
  }

  predicate Cut(h: History, k: nat)
    requires k < |h.ends|
  {
    Stretch(Start(h, k), h.ends[k])
  }

  predicate WellCut(h: History) {
    && (forall k :: 0 <= k < |h.ends| ==> Cut(h, k))
    && Submitted(h) <= |h.written|
  }

  /** Slot k of the entry ring describes the k-th stretch of the stream. */
  predicate Announces(b: Bus, h: History, k: nat)
    requires Fits(b) && k < |h.ends|
  {
    var lo, hi := b.ib[2 * EntrySlot(k)], b.ib[2 * EntrySlot(k) + 1];
    && Address(lo, hi) == b.base + 4 * WordSlot(Start(h, k))
    && Length(lo, hi) == 4 * (h.ends[k] - Start(h, k))
  }

  predicate Unread(b: Bus, h: History)
    requires Fits(b)
  {
    forall w :: |b.read| <= w < |h.written| ==> b.pb[WordSlot(w)] == h.written[w]
  }

  predicate Unfetched(b: Bus, h: History)
    requires Fits(b)
  {
    forall k :: b.fetched <= k < |h.ends| ==> Announces(b, h, k)
  }

  predicate Cursor(b: Bus, h: History)
    requires b.fetched <= |h.ends|
  {
    && b.left % 4 == 0
    && |b.read| + b.left / 4 == Start(h, b.fetched)
    && (b.left > 0 ==> b.at == b.base + 4 * WordSlot(|b.read|))
    && WordSlot(|b.read|) + b.left / 4 <= WORDS
  }

  /** The invariant: the device has read a prefix of the stream, and memory holds the rest of it. */
  predicate Sound(b: Bus, h: History) {
    && Fits(b)
    && WellCut(h)
    && |h.written| < |b.read| + WORDS
    && b.fetched <= |h.ends| < b.fetched + ENTRIES
    && b.ibPut == EntrySlot(|h.ends|)
    && b.read <= h.written
    && Unread(b, h)
    && Unfetched(b, h)
    && Cursor(b, h)
  }

  lemma {:induction false} StartsRise(h: History, j: nat, k: nat)
    requires WellCut(h) && j <= k <= |h.ends|
    ensures Start(h, j) + (k - j) <= Start(h, k)
  {
    hide WordSlot, EntrySlot;
    if j < k {
      StartsRise(h, j, k - 1);
      assert Cut(h, k - 1);
    }
  }

  lemma WordSlots(a: nat, b: nat)
    ensures a < b < a + WORDS ==> WordSlot(a) != WordSlot(b)
  {
  }

  lemma EntrySlots(a: nat, b: nat)
    ensures a < b < a + ENTRIES ==> EntrySlot(a) != EntrySlot(b)
  {
  }

  lemma NextWord(a: nat)
    ensures WordSlot(a + 1) == if WordSlot(a) + 1 == WORDS then 0 else WordSlot(a) + 1
  {
  }

  lemma EntryPeriod(k: nat)
    ensures EntrySlot(k + ENTRIES) == EntrySlot(k)
  {
  }

  lemma EntryIndex(k: nat)
    ensures 2 * EntrySlot(k) == 2 * k % 2048
  {
  }

  lemma WordPeriod(w: nat)
    ensures WordSlot(w + WORDS) == WordSlot(w)
  {
  }

  lemma NextOffset(w: nat)
    ensures 4 * WordSlot(w + 1) == (4 * WordSlot(w) + 4) % PB_SIZE
  {
    NextWord(w);
  }

  lemma NextEntry(k: nat)
    ensures EntrySlot(k + 1) == (EntrySlot(k) + 1) % ENTRIES
  {
  }

  /** The word under the cursor is the next one of the stream. */
  lemma ReadsNextWord(b: Bus, h: History)
    requires Sound(b, h) && b.left > 0
    ensures |b.read| < Submitted(h) && |b.read| < |h.written|
    ensures 0 <= b.at - b.base < PB_SIZE && b.pb[(b.at - b.base) / 4] == h.written[|b.read|]
    ensures DeviceStep(b).read == b.read + [h.written[|b.read|]] <= h.written
  {
    hide WordSlot, EntrySlot;
    StartsRise(h, b.fetched, |h.ends|);
    PrefixGrows(b.read, h.written);
  }

  lemma PrefixGrows<T>(a: seq<T>, b: seq<T>)
    requires a <= b && |a| < |b|
    ensures a + [b[|a|]] <= b
  {
  }

  lemma ReadKeeps(b: Bus, h: History)
    requires Sound(b, h) && b.left > 0
    ensures Sound(DeviceStep(b), h)
  {
    hide WordSlot, EntrySlot;
    ReadsNextWord(b, h);
    var c := DeviceStep(b);
    NextWord(|b.read|);
    assert c.left == b.left - 4;
    assert Cursor(c, h);
    assert Unread(c, h);
    FetchedSame(b, h, c, h);
  }

  lemma FetchKeeps(b: Bus, h: History)
    requires Sound(b, h) && b.left == 0 && b.ibPut != EntrySlot(b.fetched)
    ensures Sound(DeviceStep(b), h)
    ensures b.fetched < |h.ends| && DeviceStep(b).left == 4 * (h.ends[b.fetched] - Start(h, b.fetched)) > 0
  {
    hide WordSlot, EntrySlot;
    var k := b.fetched;
    assert Announces(b, h, k) && Cut(h, k);
    var c := DeviceStep(b);
    assert Cursor(c, h);
    assert Unread(c, h);
    FetchedSame(b, h, c, h);
  }

  lemma DeviceKeeps(b: Bus, h: History)
    requires Sound(b, h)
    ensures Sound(DeviceStep(b), h)
  {
    if b.left > 0 {
      ReadKeeps(b, h);
    } else if b.ibPut != EntrySlot(b.fetched) {
      FetchKeeps(b, h);
    }
  }

  /** The device has nothing to do exactly when it has read everything submitted. */
  lemma IdleIsDrained(b: Bus, h: History)
    requires Sound(b, h)
    ensures Idle(b) <==> |b.read| == Submitted(h)
    ensures |b.read| <= Submitted(h)
  {
    hide WordSlot, EntrySlot;
    StartsRise(h, b.fetched, |h.ends|);
    EntrySlots(b.fetched, |h.ends|);
  }

  /** What the device has left to do: words to read and entries to fetch. */
  function Work(b: Bus, h: History): int {
    Submitted(h) - |b.read| + |h.ends| - b.fetched
  }

  lemma StepWorks(b: Bus, h: History)
    requires Sound(b, h)
    ensures Work(b, h) >= 0 && (Idle(b) <==> Work(b, h) == 0)
    ensures Work(DeviceStep(b), h) == if Idle(b) then 0 else Work(b, h) - 1
  {
    hide WordSlot, EntrySlot;
    IdleIsDrained(b, h);
    EntrySlots(b.fetched, |h.ends|);
  }

  function DeviceSteps(b: Bus, n: nat): (c: Bus)
    requires Fits(b)
    ensures Fits(c)
    ensures c.base == b.base && c.pb == b.pb && c.ib == b.ib && c.ibPut == b.ibPut
    ensures c.fetched >= b.fetched && |c.read| >= |b.read|
    decreases n
  {
    if n == 0 then b else DeviceSteps(DeviceStep(b), n - 1)
  }

  /** However many steps the device takes, the invariant stands; once it has taken as many as it has
  work, it has read every submitted word. */
  lemma {:induction false} DeviceDrains(b: Bus, h: History, n: nat)
    requires Sound(b, h)
    ensures Sound(DeviceSteps(b, n), h)
    ensures 0 <= Work(DeviceSteps(b, n), h) <= Work(b, h)
    ensures n >= Work(b, h) ==> DeviceSteps(b, n).read == h.written[..Submitted(h)]
    ensures n > 0 && !Idle(b) ==> Work(DeviceSteps(b, n), h) < Work(b, h)
    decreases n
  {
    StepWorks(b, h);
    if n == 0 {
      IdleIsDrained(b, h);
    } else {
      DeviceKeeps(b, h);
      DeviceDrains(DeviceStep(b), h, n - 1);
    }
  }

  function PutWord(b: Bus, slot: nat, word: Word): Bus
    requires Fits(b) && slot < WORDS
  {
    b.(pb := b.pb[slot := word])
  }

  function Wrote(h: History, word: Word): History {
    h.(written := h.written + [word])
  }

  /** Writing the slot of the next stream position overwrites nothing that is still to be read. */
  lemma PutWordKeeps(b: Bus, h: History, word: Word)
    requires Sound(b, h) && |h.written| + 1 < |b.read| + WORDS
    ensures Sound(PutWord(b, WordSlot(|h.written|), word), Wrote(h, word))
  {
    hide WordSlot, EntrySlot;
    var n := |h.written|;
    var b', h' := PutWord(b, WordSlot(n), word), Wrote(h, word);
    forall w | |b'.read| <= w < |h'.written|
      ensures b'.pb[WordSlot(w)] == h'.written[w]
    {
      WordSlots(w, n);
    }
    StartsSame(h, h');
    assert Unfetched(b', h') by { FetchedSame(b, h, b', h'); }
    assert Cursor(b', h');
  }

  lemma StartsSame(h: History, g: History)
    requires g.ends == h.ends && h.written <= g.written && WellCut(h)
    ensures WellCut(g)
  {
    hide WordSlot, EntrySlot;
    forall k | 0 <= k < |g.ends| ensures Cut(g, k) {
      assert Cut(h, k);
    }
  }

  lemma FetchedSame(b: Bus, h: History, c: Bus, g: History)
    requires Fits(b) && Fits(c) && WellCut(h) && WellCut(g)
    requires c.ib == b.ib && c.base == b.base && c.fetched >= b.fetched && g.ends == h.ends
    requires Unfetched(b, h)
    ensures Unfetched(c, g)
  {
    forall k | c.fetched <= k < |g.ends| ensures Announces(c, g, k) {
      assert Announces(b, h, k);
    }
  }

  function PutEntryWord(b: Bus, slot: nat, high: bool, v: Word): Bus
    requires Fits(b) && slot < ENTRIES
  {
    b.(ib := b.ib[2 * slot + (if high then 1 else 0) := v])
  }

  function Announced(h: History, end: nat): History {
    h.(ends := h.ends + [end])
  }

  /** Filling the next entry slot disturbs no entry that is still to be fetched. */
  lemma PutEntryWordKeeps(b: Bus, h: History, high: bool, v: Word)
    requires Sound(b, h)
    ensures Sound(PutEntryWord(b, EntrySlot(|h.ends|), high, v), h)
  {
    hide WordSlot, EntrySlot;
    var c := PutEntryWord(b, EntrySlot(|h.ends|), high, v);
    forall k | c.fetched <= k < |h.ends| ensures Announces(c, h, k) {
      EntrySlots(k, |h.ends|);
      assert Announces(b, h, k);
    }
    assert Unread(c, h);
    assert Cursor(c, h);
  }

  /** The next entry slot is free and describes the stretch from the last submitted word to `end`. */
  predicate Ready(b: Bus, h: History, end: nat)
    requires Fits(b)
  {
    && Stretch(Submitted(h), end) && end <= |h.written|
    && |h.ends| + 1 < b.fetched + ENTRIES
    && Announces(b, Announced(h, end), |h.ends|)
  }

  lemma AnnounceKeeps(b: Bus, h: History, end: nat)
    requires Sound(b, h) && Ready(b, h, end)
    ensures Sound(b.(ibPut := EntrySlot(|h.ends| + 1)), Announced(h, end))
  {
    hide WordSlot, EntrySlot;
    var c, g := b.(ibPut := EntrySlot(|h.ends| + 1)), Announced(h, end);
    forall k | 0 <= k < |g.ends| ensures Cut(g, k) {
      if k < |h.ends| {
        assert Cut(h, k);
      }
    }
    forall k | c.fetched <= k < |g.ends| ensures Announces(c, g, k) {
      if k < |h.ends| {
        assert Announces(b, h, k);
      }
    }
    assert Unread(c, g);
    assert Cursor(c, g);
  }

  /** The host's full tests, on the offsets it keeps, are exact. */
  lemma FullTest(written: nat, seen: nat)
    requires seen <= written < seen + WORDS
    ensures (4 * WordSlot(written) + 4) % PB_SIZE == 4 * WordSlot(seen) <==> written + 1 == seen + WORDS
  {
    hide WordSlot;
    NextOffset(written);
    WordPeriod(seen);
    WordSlots(seen, written + 1);
  }

  lemma EntryFullTest(pushed: nat, seen: nat)
    requires seen <= pushed < seen + ENTRIES
    ensures (EntrySlot(pushed) + 1) % ENTRIES == EntrySlot(seen) <==> pushed + 1 == seen + ENTRIES
  {
    hide EntrySlot;
    NextEntry(pushed);
    EntryPeriod(seen);
    EntrySlots(seen, pushed + 1);
  }

  /** A run: the device's steps interleaved in any way with single memory accesses of the host, which
  trusts only the read positions it last polled. */
  datatype State = State(bus: Bus, history: History, seen: nat, seenEntries: nat)

  datatype Action =
    | Device
    | PollWords
    | PollEntries
    | Write(word: Word)
    | FillEntry(high: bool, v: Word)
    | Announce(end: nat)

  predicate Reset(s: State) {
    && Fits(s.bus) && s.bus.ibPut == s.bus.fetched == s.bus.left == 0 && s.bus.read == []
    && s.history == History([], []) && s.seen == s.seenEntries == 0
  }

  predicate Invariant(s: State) {
    && Sound(s.bus, s.history)
    && s.seen <= |s.bus.read| && |s.history.written| < s.seen + WORDS
    && s.seenEntries <= s.bus.fetched && |s.history.ends| < s.seenEntries + ENTRIES
  }

  predicate Allowed(s: State, a: Action)
    requires Fits(s.bus)
  {
    match a
    case Device | PollWords | PollEntries => true
    case Write(_) => |s.history.written| + 1 < s.seen + WORDS
    case FillEntry(_, _) => |s.history.ends| + 1 < s.seenEntries + ENTRIES
    case Announce(end) =>
      && |s.history.ends| + 1 < s.seenEntries + ENTRIES
      && Stretch(Submitted(s.history), end) && end <= |s.history.written|
      && Announces(s.bus, Announced(s.history, end), |s.history.ends|)
  }

  function Apply(s: State, a: Action): (t: State)
    requires Fits(s.bus)
    ensures Fits(t.bus)
  {
    match a
    case Device => s.(bus := DeviceStep(s.bus))
    case PollWords => s.(seen := |s.bus.read|)
    case PollEntries => s.(seenEntries := s.bus.fetched)
    case Write(word) =>
      s.(bus := PutWord(s.bus, WordSlot(|s.history.written|), word), history := Wrote(s.history, word))
    case FillEntry(high, v) => s.(bus := PutEntryWord(s.bus, EntrySlot(|s.history.ends|), high, v))
    case Announce(end) =>
      s.(bus := s.bus.(ibPut := EntrySlot(|s.history.ends| + 1)), history := Announced(s.history, end))
  }

  lemma StepKeeps(s: State, a: Action)
    requires Invariant(s) && Allowed(s, a)
    ensures Invariant(Apply(s, a))
  {
    hide WordSlot, EntrySlot, Unread, Unfetched, WellCut, Cursor;
    match a
    case Device => DeviceKeeps(s.bus, s.history);
    case PollWords =>
    case PollEntries =>
    case Write(word) => PutWordKeeps(s.bus, s.history, word);
    case FillEntry(high, v) => PutEntryWordKeeps(s.bus, s.history, high, v);
    case Announce(end) => AnnounceKeeps(s.bus, s.history, end);
  }

  /** The accesses of the runs are those the driver's tests on its two pairs of offsets let through; of the rest
  of the entry it is only asked that the stretch is pending, does not wrap, and is what the two words say. */
  lemma AllowedIff(s: State, w: Word, high: bool, end: nat)
    requires Invariant(s)
    ensures Allowed(s, Device) && Allowed(s, PollWords) && Allowed(s, PollEntries)
    ensures Allowed(s, Write(w)) <==> (4 * WordSlot(|s.history.written|) + 4) % 0x40000 != 4 * WordSlot(s.seen)
    ensures Allowed(s, FillEntry(high, w)) <==> (EntrySlot(|s.history.ends|) + 1) % 1024 != EntrySlot(s.seenEntries)
    ensures Allowed(s, Announce(end)) <==>
      && (EntrySlot(|s.history.ends|) + 1) % 1024 != EntrySlot(s.seenEntries)
      && Submitted(s.history) < end <= |s.history.written|
      && WordSlot(Submitted(s.history)) + (end - Submitted(s.history)) <= 0x10000
      && Announces(s.bus, Announced(s.history, end), |s.history.ends|)
  {
    hide WordSlot, EntrySlot, Unread, Unfetched, WellCut, Announces;
    FullTest(|s.history.written|, s.seen);
    EntryFullTest(|s.history.ends|, s.seenEntries);
  }

  predicate AllowedRun(s: State, run: seq<Action>)
    requires Fits(s.bus)
    decreases run
  {
    run == [] || (Allowed(s, run[0]) && AllowedRun(Apply(s, run[0]), run[1..]))
  }

  function After(s: State, run: seq<Action>): (t: State)
    requires Fits(s.bus)
    ensures Fits(t.bus)
    decreases run
  {
    if run == [] then s else After(Apply(s, run[0]), run[1..])
  }

  lemma {:induction false} RunKeeps(s: State, run: seq<Action>)
    requires Invariant(s) && AllowedRun(s, run)
    ensures Invariant(After(s, run))
    decreases run
  {
    if run != [] {
      StepKeeps(s, run[0]);
      RunKeeps(Apply(s, run[0]), run[1..]);
    }
  }

  /** The ring refines the stream: along every run the device has read exactly a prefix of the words
  written, and it is idle exactly when that prefix is everything submitted. */
  lemma ReadsThePrefix(s: State, run: seq<Action>)
    requires Reset(s) && AllowedRun(s, run)
    ensures var t := After(s, run);
      && t.bus.read <= t.history.written
      && |t.bus.read| <= Submitted(t.history) <= |t.history.written|
      && (Idle(t.bus) <==> t.bus.read == t.history.written[..Submitted(t.history)])
  {
    assert Invariant(s);
    RunKeeps(s, run);
    var t := After(s, run);
    IdleIsDrained(t.bus, t.history);
    assert WellCut(t.history);
  }
}
