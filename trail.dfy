/** The bounded FIFO that holds a ball's trail (`class Queue`). */
module Trail {

  /** What `add(x)` leaves in `elements`: `x` is pushed at the back and,
      when the queue already held `maxLength` elements or more, the front
      element is shifted out afterwards.  So the queue never outgrows
      `maxLength`, the new element is last, and the oldest element is
      evicted exactly when the queue was full. */
  function Enqueued<T>(elements: seq<T>, maxLength: nat, x: T): (r: seq<T>)
    ensures |elements| <= maxLength ==> |r| <= maxLength
    ensures |elements| < maxLength ==> r == elements + [x]
    ensures maxLength <= |elements| ==> |r| == |elements|
    ensures 0 < |elements| && maxLength <= |elements| ==> r == elements[1..] + [x]
    ensures 0 < maxLength || 0 < |elements| ==> r[|r| - 1] == x
  {
    if |elements| < maxLength then elements + [x] else (elements + [x])[1..]
  }

  /** A FIFO capped at `maxLength` elements. */
  class Queue<T> {
    const maxLength: nat
    var elements: seq<T>

    ghost predicate Valid()
      reads this
    {
      |elements| <= maxLength
    }

    constructor (maxLength: nat)
      ensures Valid()
      ensures this.maxLength == maxLength && elements == []
    {
      this.maxLength := maxLength;
      elements := [];
    }

    method Add(x: T)
      modifies this
      ensures elements == Enqueued(old(elements), maxLength, x)
      ensures old(Valid()) ==> Valid()
    {
      if |elements| < maxLength {
        elements := elements + [x];
      } else {
        elements := elements + [x];
        elements := elements[1..];
      }
    }

    /** `all()`: the elements, oldest first. */
    function All(): seq<T>
      reads this
    {
      elements
    }
  }
}
