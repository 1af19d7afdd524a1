/**
 The allocation tracker: a fixed table of slots, two running totals of type size_t and an error byte. It keeps
 a map from live addresses to the size of the block there and the line that allocated it.
 */
module MemoryTracker {
  import opened Runs

  const W: nat := 0x1_0000_0000_0000_0000
  const UINT16: nat := 0x1_0000

  // The error codes are consecutive enumerators but are used as bit masks, so NULL_FREE sets no bit
  // and FAILED_ALLOC sets the bits of the two others.
  const NULL_FREE: bv8 := 0
  const DOUBLE_FREE: bv8 := 1
  const MAX_ALLOC: bv8 := 2
  const FAILED_ALLOC: bv8 := 3

  /** An entry of the table; address 0 marks it free. */
  datatype Slot = Slot(address: nat, size: nat, line: nat)

  datatype Block = Block(size: nat, line: nat)

  /** The errors noticed so far, which the program keeps only as an error byte. */
  datatype Events = Events(doubleFrees: nat, fullTables: nat, failedAllocs: nat)

  /** What the tracker knows: the live allocations, the totals, the error byte; events is history. */
  datatype Books = Books(live: map<nat, Block>, allotted: nat, freed: nat, error: bv8, events: Events)

  const EMPTY: Books := Books(map[], 0, 0, 0, Events(0, 0, 0))

  /** The line is passed as uint16_t. */
  function Allocate(capacity: nat, b: Books, address: nat, size: nat, line: nat): Books {
    if address == 0 then
      b.(error := b.error | FAILED_ALLOC, events := b.events.(failedAllocs := b.events.failedAllocs + 1))
    else if |b.live| >= capacity then
      b.(error := b.error | MAX_ALLOC, events := b.events.(fullTables := b.events.fullTables + 1))
    else
      b.(live := b.live[address := Block(size, line % UINT16)], allotted := (b.allotted + size) % W)
  }

  function Free(b: Books, address: nat): Books {
    if address == 0 then b.(error := b.error | NULL_FREE)
    else if address !in b.live then
      b.(error := b.error | DOUBLE_FREE, events := b.events.(doubleFrees := b.events.doubleFrees + 1))
    else
      b.(live := b.live - {address}, freed := (b.freed + b.live[address].size) % W)
  }

  // ---------------------------------------------------------------------------
  // The table stands for a map
  // ---------------------------------------------------------------------------

  predicate Distinct(slots: seq<Slot>) {
    forall i, j :: 0 <= i < j < |slots| && slots[i].address != 0 ==> slots[i].address != slots[j].address
  }

  ghost function Addresses(slots: seq<Slot>): set<nat> {
    set i | 0 <= i < |slots| && slots[i].address != 0 :: slots[i].address
  }

  /** live has exactly the addresses in use in the table, with their blocks. */
  ghost predicate Represents(slots: seq<Slot>, live: map<nat, Block>) {
    && live.Keys == Addresses(slots)
    && forall i :: 0 <= i < |slots| && slots[i].address != 0 ==>
         slots[i].address in live && live[slots[i].address] == Block(slots[i].size, slots[i].line)
  }

  function Used(slots: seq<Slot>): nat {
    if slots == [] then 0 else Used(slots[..|slots| - 1]) + if slots[|slots| - 1].address == 0 then 0 else 1
  }

  lemma LastAddress(slots: seq<Slot>)
    requires slots != [] && Distinct(slots)
    ensures var (before, last) := (slots[..|slots| - 1], slots[|slots| - 1].address);
            if last == 0 then Addresses(slots) == Addresses(before)
            else Addresses(slots) == Addresses(before) + {last} && last !in Addresses(before)
  {
    var before := slots[..|slots| - 1];
    var last := slots[|slots| - 1].address;
    if last == 0 {
      assert Addresses(slots) == Addresses(before);
    } else {
      assert last == slots[|slots| - 1].address && Addresses(slots) == Addresses(before) + {last};
      assert last !in Addresses(before);
    }
  }

  lemma {:induction false} AddressesCounted(slots: seq<Slot>)
    requires Distinct(slots)
    ensures |Addresses(slots)| == Used(slots)
    ensures Used(slots) <= |slots|
    ensures Used(slots) == |slots| <==> forall i :: 0 <= i < |slots| ==> slots[i].address != 0
  {
    if slots == [] {
      assert Addresses(slots) == {};
    } else {
      var before := slots[..|slots| - 1];
      LastAddress(slots);
      AddressesCounted(before);
      hide Addresses, Distinct;
      assert slots == before + [slots[|slots| - 1]];
    }
  }

  lemma TakenAddresses(slots: seq<Slot>, i: nat, slot: Slot)
    requires i < |slots| && slots[i].address == 0 && slot.address != 0
    ensures Addresses(slots[i := slot]) == Addresses(slots) + {slot.address}
  {
    var after := slots[i := slot];
    assert after[i] == slot;
    forall a | a in Addresses(slots) ensures a in Addresses(after) {
      var k :| 0 <= k < |slots| && slots[k].address != 0 && slots[k].address == a;
      assert after[k].address == a;
    }
  }

  lemma TakeSlot(slots: seq<Slot>, live: map<nat, Block>, i: nat, slot: Slot)
    requires Distinct(slots) && Represents(slots, live) && i < |slots| && slots[i].address == 0
    requires slot.address != 0 && slot.address !in live
    ensures Distinct(slots[i := slot]) && Represents(slots[i := slot], live[slot.address := Block(slot.size, slot.line)])
  {
    TakenAddresses(slots, i, slot);
    forall k | 0 <= k < |slots| && slots[k].address != 0 ensures slots[k].address != slot.address {
      assert slots[k].address in live;
    }
    hide Addresses;
  }

  /** A slot is free exactly when fewer addresses are live than the table has slots. */
  lemma FreeSlotExists(slots: seq<Slot>, live: map<nat, Block>)
    requires Distinct(slots) && Represents(slots, live)
    ensures |live| < |slots| <==> exists i :: 0 <= i < |slots| && slots[i].address == 0
    ensures |live| <= |slots|
  {
    AddressesCounted(slots);
    assert |live| == |live.Keys|;
  }

  lemma AddressIsLive(slots: seq<Slot>, live: map<nat, Block>, address: nat)
    requires Represents(slots, live) && address != 0
    ensures address in live <==> exists i :: 0 <= i < |slots| && slots[i].address == address
  {
  }

  lemma DropSlot(slots: seq<Slot>, live: map<nat, Block>, i: nat)
    requires Distinct(slots) && Represents(slots, live) && i < |slots| && slots[i].address != 0
    ensures var after := slots[i := slots[i].(address := 0)];
            Distinct(after) && Represents(after, live - {slots[i].address})
  {
    var a := slots[i].address;
    var after := slots[i := slots[i].(address := 0)];
    forall k | 0 <= k < |slots| && k != i && slots[k].address != 0 ensures slots[k].address != a {}
    forall b | b in Addresses(slots) && b != a ensures b in Addresses(after) {
      var k :| 0 <= k < |slots| && slots[k].address != 0 && slots[k].address == b;
      assert after[k].address == b;
    }
    assert Addresses(after) == Addresses(slots) - {a};
  }

  // ---------------------------------------------------------------------------
  // Runs of a program under the tracker
  // ---------------------------------------------------------------------------

  predicate Clean(b: Books) { b.error == 0 && b.allotted == b.freed }

  datatype Call = Malloc(address: nat, size: nat, line: nat) | Release(address: nat)

  /** One tracked call; None is a malloc that returns an address still in use, which malloc never does. */
  function Tracked(capacity: nat): (Books, Call) -> Option<Books> {
    (b: Books, call: Call) =>
      match call
      case Malloc(address, size, line) =>
        if address in b.live then None else Some(Allocate(capacity, b, address, size, line))
      case Release(address) => Some(Free(b, address))
  }

  ghost function TotalSize(m: map<nat, Block>): nat
    decreases |m|
  {
    if m == map[] then 0 else var a :| a in m; m[a].size + TotalSize(m - {a})
  }

  lemma {:induction false} TotalSizeRemove(m: map<nat, Block>, a: nat)
    requires a in m
    ensures TotalSize(m) == m[a].size + TotalSize(m - {a})
    decreases |m|
  {
    var b :| b in m && TotalSize(m) == m[b].size + TotalSize(m - {b});
    if a != b {
      TotalSizeRemove(m - {b}, a);
      TotalSizeRemove(m - {a}, b);
      assert m - {b} - {a} == m - {a} - {b};
    }
  }

  predicate ErrorOk(b: Books) {
    && b.error <= 3
    && (b.error & 1 == 0 <==> b.events.doubleFrees == 0 && b.events.failedAllocs == 0)
    && (b.error & 2 == 0 <==> b.events.fullTables == 0 && b.events.failedAllocs == 0)
  }

  /** The totals differ by total, modulo the width of size_t. */
  predicate Balanced(allotted: nat, freed: nat, total: nat) {
    allotted < W && freed < W && allotted == (freed + total) % W
  }

  lemma BalancedAdd(allotted: nat, freed: nat, total: nat, size: nat)
    requires Balanced(allotted, freed, total)
    ensures Balanced((allotted + size) % W, freed, total + size)
  {
    AddMod(freed + total, size);
  }

  lemma BalancedRemove(allotted: nat, freed: nat, total: nat, size: nat)
    requires Balanced(allotted, freed, total) && size <= total
    ensures Balanced(allotted, (freed + size) % W, total - size)
  {
    AddMod(freed + size, total - size);
  }

  ghost predicate LiveOk(capacity: nat, live: map<nat, Block>, allotted: nat, freed: nat) {
    && Balanced(allotted, freed, TotalSize(live))
    && 0 !in live && |live| <= capacity
  }

  ghost predicate BooksOk(capacity: nat, b: Books) {
    LiveOk(capacity, b.live, b.allotted, b.freed) && ErrorOk(b)
  }

  lemma SetBits(e: bv8)
    ensures (e | 1) & 1 != 0 && (e | 1) & 2 == e & 2
    ensures (e | 2) & 2 != 0 && (e | 2) & 1 == e & 1
    ensures (e | 3) & 1 != 0 && (e | 3) & 2 != 0
    ensures e <= 3 ==> e | 1 <= 3 && e | 2 <= 3 && e | 3 <= 3
    ensures e | 0 == e
  {
  }

  lemma ErrorKept(capacity: nat, b: Books, call: Call)
    requires ErrorOk(b) && Tracked(capacity)(b, call).Some?
    ensures ErrorOk(Tracked(capacity)(b, call).value)
  {
    SetBits(b.error);
  }

  lemma TotalSizeAdd(m: map<nat, Block>, a: nat, block: Block)
    requires a !in m
    ensures TotalSize(m[a := block]) == TotalSize(m) + block.size
  {
    TotalSizeRemove(m[a := block], a);
    assert m[a := block] - {a} == m;
  }

  lemma LiveAdd(capacity: nat, live: map<nat, Block>, allotted: nat, freed: nat, a: nat, block: Block)
    requires LiveOk(capacity, live, allotted, freed) && a != 0 && a !in live && |live| < capacity
    ensures LiveOk(capacity, live[a := block], (allotted + block.size) % W, freed)
  {
    hide TotalSize, Balanced;
    TotalSizeAdd(live, a, block);
    BalancedAdd(allotted, freed, TotalSize(live), block.size);
  }

  lemma LiveDrop(capacity: nat, live: map<nat, Block>, allotted: nat, freed: nat, a: nat)
    requires LiveOk(capacity, live, allotted, freed) && a in live
    ensures LiveOk(capacity, live - {a}, allotted, (freed + live[a].size) % W)
  {
    hide TotalSize, Balanced;
    TotalSizeRemove(live, a);
    BalancedRemove(allotted, freed, TotalSize(live), live[a].size);
    Smaller(live, a);
  }

  lemma MallocKeepsBooks(capacity: nat, b: Books, address: nat, size: nat, line: nat)
    requires BooksOk(capacity, b) && address !in b.live
    ensures BooksOk(capacity, Allocate(capacity, b, address, size, line))
  {
    hide ErrorOk, LiveOk;
    ErrorKept(capacity, b, Malloc(address, size, line));
    if address != 0 && |b.live| < capacity {
      LiveAdd(capacity, b.live, b.allotted, b.freed, address, Block(size, line % UINT16));
    }
  }

  lemma ReleaseKeepsBooks(capacity: nat, b: Books, address: nat)
    requires BooksOk(capacity, b)
    ensures BooksOk(capacity, Free(b, address))
  {
    hide ErrorOk, LiveOk;
    ErrorKept(capacity, b, Release(address));
    NoNull(capacity, b);
    if address in b.live { LiveDrop(capacity, b.live, b.allotted, b.freed, address); }
  }

  lemma NoNull(capacity: nat, b: Books)
    requires BooksOk(capacity, b)
    ensures 0 !in b.live
  {
  }

  lemma Smaller(m: map<nat, Block>, a: nat)
    ensures |m - {a}| <= |m|
  {
    assert (m - {a}).Keys == m.Keys - {a};
    assert |m - {a}| == |(m - {a}).Keys| && |m| == |m.Keys|;
  }

  lemma CallKeepsBooks(capacity: nat, b: Books, call: Call)
    requires BooksOk(capacity, b) && Tracked(capacity)(b, call).Some?
    ensures BooksOk(capacity, Tracked(capacity)(b, call).value)
  {
    hide BooksOk, Allocate, Free;
    match call
    case Malloc(address, size, line) => MallocKeepsBooks(capacity, b, address, size, line);
    case Release(address) => ReleaseKeepsBooks(capacity, b, address);
  }

  lemma AddMod(x: nat, y: nat)
    ensures (x % W + y) % W == (x + y) % W
  {
  }

  // ---------------------------------------------------------------------------
  // What is live, in terms of the calls alone
  // ---------------------------------------------------------------------------

  lemma RunKeepsBooks(capacity: nat, calls: seq<Call>)
    requires Exec(Tracked(capacity), EMPTY, calls).Some?
    ensures BooksOk(capacity, Exec(Tracked(capacity), EMPTY, calls).value)
  {
    forall b, call | BooksOk(capacity, b) && Tracked(capacity)(b, call).Some?
      ensures BooksOk(capacity, Tracked(capacity)(b, call).value)
    {
      CallKeepsBooks(capacity, b, call);
    }
    KeepsInvariant(Tracked(capacity), b => BooksOk(capacity, b), EMPTY, calls);
  }

  predicate Allowed(capacity: nat, calls: seq<Call>) { Exec(Tracked(capacity), EMPTY, calls).Some? }

  /** The books after a sequence of calls. */
  function After(capacity: nat, calls: seq<Call>): Books {
    match Exec(Tracked(capacity), EMPTY, calls)
    case None => EMPTY
    case Some(b) => b
  }

  /** Call k is a malloc that returns memory, and the table has room for it. */
  predicate Takes(capacity: nat, calls: seq<Call>, k: nat) {
    k < |calls| && calls[k].Malloc? && calls[k].address != 0 && |After(capacity, calls[..k]).live| < capacity
  }

  /** The memory that call k takes is not released until the end. */
  predicate Pending(capacity: nat, calls: seq<Call>, k: nat) {
    Takes(capacity, calls, k) && forall j :: k < j < |calls| ==> calls[j] != Release(calls[k].address)
  }

  predicate FailsAt(calls: seq<Call>, k: nat) {
    k < |calls| && calls[k].Malloc? && calls[k].address == 0
  }

  predicate FullAt(capacity: nat, calls: seq<Call>, k: nat) {
    k < |calls| && calls[k].Malloc? && calls[k].address != 0 && |After(capacity, calls[..k]).live| >= capacity
  }

  /** Call k releases an address that no earlier call has taken without a release in between. */
  ghost predicate DoubleFreeAt(capacity: nat, calls: seq<Call>, k: nat) {
    && k < |calls| && calls[k].Release? && calls[k].address != 0
    && forall j: nat :: Pending(capacity, calls[..k], j) ==> calls[j].address != calls[k].address
  }

  /** The sizes that the first n calls asked for and that are pending in the end. */
  function Outstanding(capacity: nat, calls: seq<Call>, n: nat): nat
    requires n <= |calls|
  {
    if n == 0 then 0
    else Outstanding(capacity, calls, n - 1) + if Pending(capacity, calls, n - 1) then calls[n - 1].size else 0
  }

  lemma AllowedBefore(capacity: nat, calls: seq<Call>, k: nat)
    requires Allowed(capacity, calls) && k <= |calls|
    ensures Allowed(capacity, calls[..k])
  {
    assert calls == calls[..k] + calls[k..];
    ExecPrefix(Tracked(capacity), EMPTY, calls[..k], calls[k..]);
  }

  lemma LastCall(capacity: nat, calls: seq<Call>)
    requires Allowed(capacity, calls) && calls != []
    ensures var (before, call) := (calls[..|calls| - 1], calls[|calls| - 1]);
            && Allowed(capacity, before)
            && Tracked(capacity)(After(capacity, before), call) == Some(After(capacity, calls))
  {
    var (before, call) := (calls[..|calls| - 1], calls[|calls| - 1]);
    AllowedBefore(capacity, calls, |calls| - 1);
    assert calls == before + [call];
    ExecAppend(Tracked(capacity), EMPTY, before, [call]);
    ExecOne(Tracked(capacity), After(capacity, before), call);
  }

  /** What one more call changes. */
  lemma PendingBefore(capacity: nat, calls: seq<Call>, k: nat)
    requires calls != [] && k < |calls| - 1
    ensures var (before, call) := (calls[..|calls| - 1], calls[|calls| - 1]);
            Pending(capacity, calls, k) <==> Pending(capacity, before, k) && call != Release(calls[k].address)
  {
    var before := calls[..|calls| - 1];
    assert before[..k] == calls[..k];
    if Pending(capacity, before, k) && calls[|calls| - 1] != Release(calls[k].address) {
      forall j | k < j < |calls| ensures calls[j] != Release(calls[k].address) {
        if j < |before| { assert before[j] == calls[j]; }
      }
    }
    if Pending(capacity, calls, k) {
      forall j | k < j < |before| ensures before[j] != Release(before[k].address) { assert before[j] == calls[j]; }
    }
  }

  /** What a call has taken and no call has released is live, with the size and the line asked for. */
  lemma {:induction false} PendingIsLive(capacity: nat, calls: seq<Call>, k: nat)
    requires Allowed(capacity, calls) && Pending(capacity, calls, k)
    ensures calls[k].address in After(capacity, calls).live
    ensures After(capacity, calls).live[calls[k].address] == Block(calls[k].size, calls[k].line % UINT16)
    decreases |calls|
  {
    LastCall(capacity, calls);
    if k < |calls| - 1 {
      PendingBefore(capacity, calls, k);
      PendingIsLive(capacity, calls[..|calls| - 1], k);
    }
    hide Pending, After, Exec;
  }

  /** And nothing else is live. */
  lemma {:induction false} LiveIsPending(capacity: nat, calls: seq<Call>, a: nat) returns (k: nat)
    requires Allowed(capacity, calls) && a in After(capacity, calls).live
    ensures Pending(capacity, calls, k) && calls[k].address == a
    decreases |calls|
  {
    var (before, call) := (calls[..|calls| - 1], calls[|calls| - 1]);
    LastCall(capacity, calls);
    RunKeepsBooks(capacity, calls);
    NoNull(capacity, After(capacity, calls));
    if call.Malloc? && call.address == a {
      k := |calls| - 1;
    } else {
      k := LiveIsPending(capacity, before, a);
      PendingBefore(capacity, calls, k);
    }
  }

  lemma LiveExactly(capacity: nat, calls: seq<Call>, a: nat)
    requires Allowed(capacity, calls)
    ensures a in After(capacity, calls).live <==> exists k: nat :: Pending(capacity, calls, k) && calls[k].address == a
    ensures forall k: nat :: Pending(capacity, calls, k) && calls[k].address == a ==>
              a in After(capacity, calls).live &&
              After(capacity, calls).live[a] == Block(calls[k].size, calls[k].line % UINT16)
  {
    forall k: nat | Pending(capacity, calls, k) && calls[k].address == a
      ensures a in After(capacity, calls).live &&
              After(capacity, calls).live[a] == Block(calls[k].size, calls[k].line % UINT16)
    {
      PendingIsLive(capacity, calls, k);
    }
    if a in After(capacity, calls).live { var k := LiveIsPending(capacity, calls, a); }
  }

  /** Two calls that took the same address: the first has been released before the second. */
  lemma PendingOnce(capacity: nat, calls: seq<Call>, k: nat, l: nat)
    requires Allowed(capacity, calls) && k < l
    requires Pending(capacity, calls, k) && Pending(capacity, calls, l)
    ensures calls[k].address != calls[l].address
  {
    var before := calls[..l];
    AllowedBefore(capacity, calls, l);
    assert before[..k] == calls[..k];
    assert Pending(capacity, before, k);
    PendingIsLive(capacity, before, k);
    AllowedBefore(capacity, calls, l + 1);
    assert calls[..l + 1][..l] == before;
    LastCall(capacity, calls[..l + 1]);
  }

  lemma {:induction false} SameOutstanding(capacity: nat, calls: seq<Call>, more: seq<Call>, n: nat)
    requires n <= |calls| <= |more| && calls == more[..|calls|]
    requires forall k: nat :: k < n ==> (Pending(capacity, more, k) <==> Pending(capacity, calls, k))
    ensures Outstanding(capacity, more, n) == Outstanding(capacity, calls, n)
  {
    if n > 0 { SameOutstanding(capacity, calls, more, n - 1); }
  }

  lemma {:induction false} OneLessOutstanding(capacity: nat, calls: seq<Call>, more: seq<Call>, gone: nat, n: nat)
    requires n <= |calls| <= |more| && calls == more[..|calls|]
    requires forall k: nat :: k < n && k != gone ==> (Pending(capacity, more, k) <==> Pending(capacity, calls, k))
    requires gone < n && Pending(capacity, calls, gone) && !Pending(capacity, more, gone)
    ensures Outstanding(capacity, more, n) == Outstanding(capacity, calls, n) - calls[gone].size
  {
    if n - 1 == gone {
      SameOutstanding(capacity, calls, more, n - 1);
    } else {
      OneLessOutstanding(capacity, calls, more, gone, n - 1);
    }
  }

  /** The live memory is what was asked for and has not been released. */
  lemma {:induction false} OutstandingIsLive(capacity: nat, calls: seq<Call>)
    requires Allowed(capacity, calls)
    ensures TotalSize(After(capacity, calls).live) == Outstanding(capacity, calls, |calls|)
    decreases |calls|
  {
    if calls != [] {
      var (before, call) := (calls[..|calls| - 1], calls[|calls| - 1]);
      LastCall(capacity, calls);
      OutstandingIsLive(capacity, before);
      RunKeepsBooks(capacity, before);
      NoNull(capacity, After(capacity, before));
      if call.Release? && call.address in After(capacity, before).live {
        ReleasedOutstanding(capacity, calls);
      } else {
        KeptOutstanding(capacity, calls);
        if Takes(capacity, calls, |before|) {
          TotalSizeAdd(After(capacity, before).live, call.address, Block(call.size, call.line % UINT16));
        }
      }
    }
  }

  lemma KeptOutstanding(capacity: nat, calls: seq<Call>)
    requires Allowed(capacity, calls) && calls != []
    requires var (before, call) := (calls[..|calls| - 1], calls[|calls| - 1]);
             call.Release? ==> call.address !in After(capacity, before).live
    ensures Outstanding(capacity, calls, |calls| - 1) == Outstanding(capacity, calls[..|calls| - 1], |calls| - 1)
    ensures Pending(capacity, calls, |calls| - 1) <==> Takes(capacity, calls, |calls| - 1)
  {
    var before := calls[..|calls| - 1];
    LastCall(capacity, calls);
    forall k: nat | k < |before| ensures Pending(capacity, calls, k) <==> Pending(capacity, before, k) {
      PendingBefore(capacity, calls, k);
      if Pending(capacity, before, k) { PendingIsLive(capacity, before, k); }
    }
    hide Pending, After;
    SameOutstanding(capacity, before, calls, |before|);
  }

  lemma ReleasedOutstanding(capacity: nat, calls: seq<Call>)
    requires Allowed(capacity, calls) && calls != []
    requires var (before, call) := (calls[..|calls| - 1], calls[|calls| - 1]);
             && call.Release? && call.address in After(capacity, before).live
             && TotalSize(After(capacity, before).live) == Outstanding(capacity, before, |before|)
    ensures TotalSize(After(capacity, calls).live) == Outstanding(capacity, calls, |calls|)
  {
    var (before, call) := (calls[..|calls| - 1], calls[|calls| - 1]);
    LastCall(capacity, calls);
    RunKeepsBooks(capacity, before);
    NoNull(capacity, After(capacity, before));
    var gone := LiveIsPending(capacity, before, call.address);
    PendingIsLive(capacity, before, gone);
    TotalSizeRemove(After(capacity, before).live, call.address);
    forall k: nat | k < |before| && k != gone ensures Pending(capacity, calls, k) <==> Pending(capacity, before, k) {
      PendingBefore(capacity, calls, k);
      if Pending(capacity, before, k) {
        if k < gone { PendingOnce(capacity, before, k, gone); } else { PendingOnce(capacity, before, gone, k); }
      }
    }
    PendingBefore(capacity, calls, gone);
    assert !Pending(capacity, calls, |before|);
    OneLessOutstanding(capacity, before, calls, gone, |before|);
  }

  /** The errors counted are those that the calls show. */
  lemma {:induction false} ErrorsExactly(capacity: nat, calls: seq<Call>)
    requires Allowed(capacity, calls)
    ensures var e := After(capacity, calls).events;
            && (e.failedAllocs == 0 <==> forall k: nat :: !FailsAt(calls, k))
            && (e.fullTables == 0 <==> forall k: nat :: !FullAt(capacity, calls, k))
            && (e.doubleFrees == 0 <==> forall k: nat :: !DoubleFreeAt(capacity, calls, k))
    decreases |calls|
  {
    if calls != [] {
      var (before, call) := (calls[..|calls| - 1], calls[|calls| - 1]);
      LastCall(capacity, calls);
      ErrorsExactly(capacity, before);
      forall k: nat | k < |before|
        ensures FailsAt(calls, k) <==> FailsAt(before, k)
        ensures FullAt(capacity, calls, k) <==> FullAt(capacity, before, k)
        ensures DoubleFreeAt(capacity, calls, k) <==> DoubleFreeAt(capacity, before, k)
      {
        ErrorBefore(capacity, calls, k);
      }
      LastError(capacity, calls);
      OldErrors(capacity, before);
      OldErrors(capacity, calls);
    }
  }

  lemma OldErrors(capacity: nat, calls: seq<Call>)
    ensures forall k: nat :: FailsAt(calls, k) || FullAt(capacity, calls, k) || DoubleFreeAt(capacity, calls, k) ==> k < |calls|
  {
  }

  lemma ErrorBefore(capacity: nat, calls: seq<Call>, k: nat)
    requires calls != [] && k < |calls| - 1
    ensures var before := calls[..|calls| - 1];
            && (FailsAt(calls, k) <==> FailsAt(before, k))
            && (FullAt(capacity, calls, k) <==> FullAt(capacity, before, k))
            && (DoubleFreeAt(capacity, calls, k) <==> DoubleFreeAt(capacity, before, k))
  {
    var before := calls[..|calls| - 1];
    assert before[..k] == calls[..k] && before[k] == calls[k];
    assert forall j: nat :: Pending(capacity, calls[..k], j) ==> j < k && before[j] == calls[j];
  }

  lemma LastError(capacity: nat, calls: seq<Call>)
    requires Allowed(capacity, calls) && calls != []
    ensures var k := |calls| - 1;
            var (d, e) := (After(capacity, calls[..k]).events, After(capacity, calls).events);
            && e.failedAllocs == d.failedAllocs + (if FailsAt(calls, k) then 1 else 0)
            && e.fullTables == d.fullTables + (if FullAt(capacity, calls, k) then 1 else 0)
            && e.doubleFrees == d.doubleFrees + (if DoubleFreeAt(capacity, calls, k) then 1 else 0)
  {
    var k := |calls| - 1;
    LastCall(capacity, calls);
    RunKeepsBooks(capacity, calls[..k]);
    NoNull(capacity, After(capacity, calls[..k]));
    LiveExactly(capacity, calls[..k], calls[k].address);
    assert forall j: nat :: Pending(capacity, calls[..k], j) ==> calls[..k][j] == calls[j];
  }

  // ---------------------------------------------------------------------------
  // The tracker on its table
  // ---------------------------------------------------------------------------

  class Tracker {
    const memory: array<Slot>
    var totalAllocated: nat
    var totalFreed: nat
    var error: bv8
    ghost var live: map<nat, Block>
    ghost var events: Events
    ghost var calls: seq<Call>

    /** The table and the books are those of the calls so far. */
    ghost predicate Valid()
      reads this, memory
    {
      TableOk() && Exec(Tracked(memory.Length), EMPTY, calls) == Some(Abs())
    }

    ghost predicate TableOk()
      reads `live, memory
    {
      Distinct(memory[..]) && Represents(memory[..], live)
    }

    ghost function Abs(): Books
      reads this
    {
      Books(live, totalAllocated, totalFreed, error, events)
    }

    constructor (capacity: nat)
      ensures Valid() && memory.Length == capacity && Abs() == EMPTY && calls == []
    {
      memory := new Slot[capacity](_ => Slot(0, 0, 0));
      totalAllocated, totalFreed, error := 0, 0, 0;
      live, events, calls := map[], Events(0, 0, 0), [];
      new;
      assert Addresses(memory[..]) == {};
    }

    /** The first slot with this address. */
    method FindAddress(address: nat) returns (found: Option<nat>)
      ensures found.Some? ==> found.value < memory.Length && memory[found.value].address == address
      ensures found.Some? ==> forall i :: 0 <= i < found.value ==> memory[i].address != address
      ensures found.None? ==> forall i :: 0 <= i < memory.Length ==> memory[i].address != address
    {
      var i := 0;
      while i < memory.Length
        invariant i <= memory.Length
        invariant forall k :: 0 <= k < i ==> memory[k].address != address
      {
        if memory[i].address == address {
          return Some(i);
        }
        i := i + 1;
      }
      return None;
    }

    /** The slot of a live address. */
    method FindLive(address: nat) returns (found: Option<nat>)
      requires TableOk() && address != 0
      ensures found.Some? <==> address in live
      ensures found.Some? ==> found.value < memory.Length && memory[found.value].address == address
    {
      found := FindAddress(address);
      AddressIsLive(memory[..], live, address);
    }

    /** Called with what malloc returned, which is no address still in use. */
    method AllocateMemory(address: nat, size: nat, line: nat)
      requires Valid() && address !in live
      modifies this, memory
      ensures Valid() && Abs() == Allocate(memory.Length, old(Abs()), address, size, line)
      ensures calls == old(calls) + [Malloc(address, size, line)]
    {
      OneMoreCall(memory.Length, calls, Malloc(address, size, line));
      calls := calls + [Malloc(address, size, line)];
      hide Exec;
      TakeBlock(address, size, line);
    }

    method TakeBlock(address: nat, size: nat, line: nat)
      requires TableOk() && address !in live
      modifies `totalAllocated, `error, `live, `events, memory
      ensures TableOk() && Abs() == Allocate(memory.Length, old(Abs()), address, size, line)
    {
      FreeSlotExists(memory[..], live);
      if address == 0 {
        error := error | FAILED_ALLOC;
        events := events.(failedAllocs := events.failedAllocs + 1);
        return;
      }
      var slot := FindAddress(0);
      if slot.None? {
        error := error | MAX_ALLOC;
        events := events.(fullTables := events.fullTables + 1);
        return;
      }
      TakeSlot(memory[..], live, slot.value, Slot(address, size, line % UINT16));
      memory[slot.value] := Slot(address, size, line % UINT16);
      totalAllocated := (totalAllocated + size) % W;
      live := live[address := Block(size, line % UINT16)];
    }

    method FreeMemory(address: nat, line: nat) returns (freed: bool)
      requires Valid()
      modifies this, memory
      ensures Valid() && Abs() == Free(old(Abs()), address)
      ensures freed <==> address in old(live)
      ensures calls == old(calls) + [Release(address)]
    {
      RunKeepsBooks(memory.Length, calls);
      NoNull(memory.Length, Abs());
      OneMoreCall(memory.Length, calls, Release(address));
      calls := calls + [Release(address)];
      hide Exec, TableOk, Represents, Distinct;
      if address == 0 {
        Note(NULL_FREE, events);
        freed := false;
      } else {
        freed := ReleaseBlock(address);
      }
    }

    method ReleaseBlock(address: nat) returns (freed: bool)
      requires TableOk() && address != 0
      modifies `totalFreed, `error, `live, `events, memory
      ensures TableOk() && Abs() == Free(old(Abs()), address)
      ensures freed <==> address in old(live)
    {
      hide TableOk;
      var slot := FindLive(address);
      freed := slot.Some?;
      if freed {
        Clear(slot.value);
      } else {
        Note(DOUBLE_FREE, events.(doubleFrees := events.doubleFrees + 1));
      }
    }

    /** Set bits of the error byte. */
    method Note(bits: bv8, ghost now: Events)
      modifies `error, `events
      ensures Abs() == old(Abs()).(error := old(Abs()).error | bits, events := now)
    {
      error := error | bits;
      events := now;
    }

    /** Give slot i back. */
    method Clear(i: nat)
      requires TableOk() && i < memory.Length && memory[i].address != 0
      modifies `totalFreed, `live, memory
      ensures TableOk() && old(memory[i].address) in old(live)
      ensures var a := old(memory[i].address);
              Abs() == old(Abs()).(live := old(live) - {a}, freed := (old(Abs()).freed + old(live)[a].size) % W)
    {
      DropSlot(memory[..], live, i);
      live := live - {memory[i].address};
      memory[i] := memory[i].(address := 0);
      totalFreed := (totalFreed + memory[i].size) % W;
    }

    /** The sizes asked for and not released do not add up to a multiple of 2^64. */
    method IsMemoryLeaked() returns (leaked: bool)
      requires Valid()
      ensures leaked <==> Outstanding(memory.Length, calls, |calls|) % W != 0
      ensures leaked <==> TotalSize(live) % W != 0
    {
      RunKeepsBooks(memory.Length, calls);
      OutstandingIsLive(memory.Length, calls);
      BalancedTotals(totalAllocated, totalFreed, TotalSize(live));
      leaked := totalAllocated != totalFreed;
    }

    method CheckCleanMemoryHandling() returns (clean: bool)
      requires Valid()
      ensures clean <==> Outstanding(memory.Length, calls, |calls|) % W == 0 && Faultless(memory.Length, calls)
      ensures clean <==> TotalSize(live) % W == 0 && events == Events(0, 0, 0)
    {
      CleanExactly(memory.Length, calls);
      RunKeepsBooks(memory.Length, calls);
      BalancedTotals(totalAllocated, totalFreed, TotalSize(live));
      hide Outstanding, Faultless, TotalSize, Exec, TableOk;
      var leaked := IsMemoryLeaked();
      clean := error == 0 && !leaked;
    }
  }

  /** No call fails, finds the table full, or releases what is not live. */
  ghost predicate Faultless(capacity: nat, calls: seq<Call>) {
    forall k: nat :: !FailsAt(calls, k) && !FullAt(capacity, calls, k) && !DoubleFreeAt(capacity, calls, k)
  }

  lemma OneMoreCall(capacity: nat, calls: seq<Call>, call: Call)
    requires Allowed(capacity, calls)
    ensures Exec(Tracked(capacity), EMPTY, calls + [call]) == Tracked(capacity)(After(capacity, calls), call)
  {
    ExecAppend(Tracked(capacity), EMPTY, calls, [call]);
    ExecOne(Tracked(capacity), After(capacity, calls), call);
  }

  // ---------------------------------------------------------------------------
  // What the totals and the error byte say after any run
  // ---------------------------------------------------------------------------

  /** The totals differ by the live memory, up to the width of size_t. */
  lemma TotalsBalance(capacity: nat, calls: seq<Call>)
    requires Exec(Tracked(capacity), EMPTY, calls).Some?
    ensures var b := Exec(Tracked(capacity), EMPTY, calls).value;
            (b.allotted - b.freed) % W == TotalSize(b.live) % W
  {
    hide Allocate, Free, ErrorOk, TotalSize;
    RunKeepsBooks(capacity, calls);
    var b := Exec(Tracked(capacity), EMPTY, calls).value;
    Difference(b.allotted, b.freed, TotalSize(b.live));
  }

  lemma BalancedTotals(allotted: nat, freed: nat, total: nat)
    requires Balanced(allotted, freed, total)
    ensures allotted == freed <==> total % W == 0
  {
  }

  lemma Difference(allotted: nat, freed: nat, total: nat)
    requires Balanced(allotted, freed, total)
    ensures (allotted - freed) % W == total % W
  {
  }

  /**
   The clean check holds exactly when the sizes asked for and not released add up to a multiple of 2^64, and no call
   was a double free, met a full table, or failed. Freeing NULL is not among its reasons.
   */
  lemma CleanExactly(capacity: nat, calls: seq<Call>)
    requires Exec(Tracked(capacity), EMPTY, calls).Some?
    ensures var b := Exec(Tracked(capacity), EMPTY, calls).value;
            && (Clean(b) <==> Outstanding(capacity, calls, |calls|) % W == 0 && Faultless(capacity, calls))
            && (Clean(b) <==> TotalSize(b.live) % W == 0 && b.events == Events(0, 0, 0))
  {
    var b := Exec(Tracked(capacity), EMPTY, calls).value;
    RunKeepsBooks(capacity, calls);
    OutstandingIsLive(capacity, calls);
    FaultlessExactly(capacity, calls);
    CleanBooks(capacity, b);
    hide Clean, Outstanding, Faultless, Tracked, BooksOk, TotalSize;
  }

  lemma FaultlessExactly(capacity: nat, calls: seq<Call>)
    requires Allowed(capacity, calls)
    ensures After(capacity, calls).events == Events(0, 0, 0) <==> Faultless(capacity, calls)
  {
    ErrorsExactly(capacity, calls);
    hide FailsAt, FullAt, DoubleFreeAt;
  }

  lemma CleanBooks(capacity: nat, b: Books)
    requires BooksOk(capacity, b)
    ensures Clean(b) <==> TotalSize(b.live) % W == 0 && b.events == Events(0, 0, 0)
  {
    LowBits(b.error);
    BalancedTotals(b.allotted, b.freed, TotalSize(b.live));
  }

  lemma LowBits(e: bv8)
    ensures e <= 3 ==> (e == 0 <==> e & 1 == 0 && e & 2 == 0)
  {
  }

  /** The error byte reads FAILED_ALLOC exactly after a failed allocation, or a double free and a full table. */
  lemma FailedAllocIsAmbiguous(capacity: nat, calls: seq<Call>)
    requires Exec(Tracked(capacity), EMPTY, calls).Some?
    ensures var b := Exec(Tracked(capacity), EMPTY, calls).value;
            b.error == FAILED_ALLOC <==>
            b.events.failedAllocs > 0 || (b.events.doubleFrees > 0 && b.events.fullTables > 0)
  {
    RunKeepsBooks(capacity, calls);
    BothBits(Exec(Tracked(capacity), EMPTY, calls).value.error);
  }

  lemma BothBits(e: bv8)
    ensures e <= 3 ==> (e == 3 <==> e & 1 != 0 && e & 2 != 0)
  {
  }

  /** A free of NULL anywhere in a run leaves no trace. */
  lemma NullFreeGoesUnnoticed(capacity: nat, before: seq<Call>, after: seq<Call>)
    requires Exec(Tracked(capacity), EMPTY, before).Some?
    ensures Exec(Tracked(capacity), EMPTY, before + [Release(0)] + after) == Exec(Tracked(capacity), EMPTY, before + after)
  {
    var step := Tracked(capacity);
    var b := Exec(step, EMPTY, before).value;
    SetBits(b.error);
    ExecOne(step, b, Release(0));
    ExecAppend(step, EMPTY, before, [Release(0)]);
    ExecAppend(step, EMPTY, before + [Release(0)], after);
    ExecAppend(step, EMPTY, before, after);
  }

  /** In particular, the clean check does not see it. */
  lemma CleanAfterNullFree(capacity: nat)
    ensures Exec(Tracked(capacity), EMPTY, [Release(0)]) == Some(EMPTY) && Clean(EMPTY)
  {
    NullFreeGoesUnnoticed(capacity, [], []);
    assert [] + [Release(0)] + [] == [Release(0)];
  }
}
