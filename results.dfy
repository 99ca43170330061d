/** Failure values of the filter compiler: the exceptions the Java code throws,
    and the Option / Result wrappers used to return them instead. */
module Results {

  datatype Option<+T> = None | Some(value: T)

  /** The exceptions the modelled code can raise, one constructor per kind. */
  datatype Error =
    | WrongFilter(message: string)        // WrongFilterException: batched unknown fields
    | HiperBoot(message: string)          // HiperBootException: operator/type mismatch, bad sort order
    | NumberFormat(input: string)         // NumberFormatException from Long/Integer/Short/Byte parsing
    | IllegalArgument(message: string)    // IllegalArgumentException
    | DateTimeParse(input: string)        // DateTimeParseException from a java.time conversion
    | ClassCast                           // ClassCastException from an unchecked cast
    | NullPointer                         // NullPointerException
    | IndexOutOfBounds                    // List.get / array index out of range
    | Arithmetic                          // ArithmeticException from Math.toIntExact
    | UnsupportedOperation                // UnsupportedOperationException

  datatype Result<+T> = Ok(value: T) | Err(error: Error) {
    predicate IsFailure() { Err? }
    function PropagateFailure<U>(): Result<U>
      requires Err?
    {
      Err(error)
    }
    function Extract(): T
      requires Ok?
    {
      value
    }
  }

  /** A computation of a list that runs `head` and then `rest`: the first
      exception wins, otherwise the two lists are concatenated. */
  function Prepend<T>(head: Result<seq<T>>, rest: Result<seq<T>>): Result<seq<T>> {
    if head.Err? then Err(head.error) else if rest.Err? then Err(rest.error) else Ok(head.value + rest.value)
  }

  /** One element as a computation of a one-element list. */
  function Unit<T>(r: Result<T>): Result<seq<T>> {
    if r.Err? then Err(r.error) else Ok([r.value])
  }

  /** The invariant of a loop that computes `all` front to back: what it has
      collected, followed by what the remaining computation `rest` yields,
      is the whole list; and a failing whole fails in the remainder. */
  ghost predicate SuffixInvariant<T>(all: Result<seq<T>>, rest: Result<seq<T>>, acc: seq<T>) {
    (all.Ok? ==> rest.Ok? && all.value == acc + rest.value) && (all.Err? ==> rest == all)
  }

  lemma SuffixStart<T>(all: Result<seq<T>>)
    ensures SuffixInvariant(all, all, [])
  {
    if all.Ok? {
      assert [] + all.value == all.value;
    }
  }

  /** A loop step: running head either raises the whole computation's
      exception or extends the collected list. */
  lemma SuffixStep<T>(all: Result<seq<T>>, head: Result<seq<T>>, rest: Result<seq<T>>, acc: seq<T>)
    requires SuffixInvariant(all, Prepend(head, rest), acc)
    ensures head.Err? ==> all == Err(head.error)
    ensures head.Ok? ==> SuffixInvariant(all, rest, acc + head.value)
  {
    if head.Ok? && rest.Ok? {
      assert acc + (head.value + rest.value) == (acc + head.value) + rest.value;
    }
  }

  lemma SuffixEnd<T>(all: Result<seq<T>>, acc: seq<T>)
    requires SuffixInvariant(all, Ok([]), acc)
    ensures all == Ok(acc)
  {
    assert acc + [] == acc;
  }

  /** Every computation of the list succeeded. */
  ghost predicate AllOk<T>(rs: seq<Result<T>>) {
    forall i :: 0 <= i < |rs| ==> rs[i].Ok?
  }

  /** The first computation of the list that failed failed with e. */
  ghost predicate FailsFirstWith<T>(rs: seq<Result<T>>, e: Error) {
    exists i :: 0 <= i < |rs| && rs[i] == Err(e) && AllOk(rs[..i])
  }

  lemma SnocResults<T>(rs: seq<Result<T>>, r: Result<T>, e: Error)
    ensures AllOk(rs + [r]) <==> AllOk(rs) && r.Ok?
    ensures FailsFirstWith(rs, e) ==> FailsFirstWith(rs + [r], e)
    ensures AllOk(rs) && r.Err? ==> FailsFirstWith(rs + [r], r.error)
  {
    var c := rs + [r];
    assert forall i :: 0 <= i < |rs| ==> c[i] == rs[i];
    if FailsFirstWith(rs, e) {
      var i :| 0 <= i < |rs| && rs[i] == Err(e) && AllOk(rs[..i]);
      assert c[..i] == rs[..i];
      assert c[i] == Err(e);
    }
    if AllOk(rs) && r.Err? {
      assert c[..|rs|] == rs;
      assert c[|rs|] == r;
    }
  }
}
