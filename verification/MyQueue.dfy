/** The linked FIFO queue of the exercises (STAILQ), and the sequence it stands for. */
module MyQueue {

  class Entry<T> {
    const value: T
    var next: Entry?<T>

    constructor (value: T)
      ensures this.value == value && next == null
    {
      this.value := value;
      next := null;
    }
  }

  class Queue<T> {
    var first: Entry?<T>
    var last: Entry?<T>
    /** The entries from first to last. */
    ghost var spine: seq<Entry<T>>

    ghost predicate Valid()
      reads this, spine
    {
      && (forall i, j :: 0 <= i < j < |spine| ==> spine[i] != spine[j])
      && (forall i :: 0 <= i < |spine| - 1 ==> spine[i].next == spine[i + 1])
      && (spine != [] ==> spine[|spine| - 1].next == null)
      && first == (if spine == [] then null else spine[0])
      && last == (if spine == [] then null else spine[|spine| - 1])
    }

    ghost function Entries(): set<Entry<T>>
      reads this
    {
      set e | e in spine
    }

    ghost function Contents(): (values: seq<T>)
      reads this, spine
    {
      seq(|spine|, i requires 0 <= i < |spine| reads this, spine => spine[i].value)
    }

    constructor ()
      ensures Valid() && Contents() == [] && spine == []
    {
      first, last := null, null;
      spine := [];
    }

    method IsEmpty() returns (empty: bool)
      requires Valid()
      ensures empty <==> Contents() == []
    {
      empty := first == null;
    }

    method Push(value: T)
      requires Valid()
      modifies this, Entries()
      ensures Valid() && fresh(Entries() - old(Entries()))
      ensures Contents() == old(Contents()) + [value]
    {
      var entry := new Entry<T>(value);
      if last == null {
        first := entry;
      } else {
        last.next := entry;
      }
      last := entry;
      spine := spine + [entry];
    }

    method Pop() returns (value: T)
      requires Valid() && Contents() != []
      modifies this
      ensures Valid() && Entries() <= old(Entries())
      ensures old(Contents()) == [value] + Contents()
    {
      assert |Contents()| == |spine|;
      value := first.value;
      first := first.next;
      spine := spine[1..];
      if first == null {
        last := null;
      }
    }
  }
}
