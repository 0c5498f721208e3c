/** A player's progress on one task, and the integer progress accessors of
    TaskUtils: getIntegerTaskProgress, incrementIntegerTaskProgress and
    decrementIntegerTaskProgress. */
module Progress {
  import opened JavaLang
  import opened Config

  /** TaskProgress: a progress value (null until first set) and a completed
      flag, both updated in place. */
  class TaskProgress {
    var progress: Value
    var completed: bool

    constructor (progress: Value, completed: bool)
      ensures this.progress == progress && this.completed == completed
    {
      this.progress := progress;
      this.completed := completed;
    }
  }

  /** The `(int)` reading of a stored progress value: null reads as 0, an
      Integer as itself, anything else fails the cast. */
  function IntegerProgress(v: Value): (r: Result<int32>)
    ensures r.Ok? <==> v == CNull || v.CInt?
    ensures v == CNull ==> r == Ok(0)
    ensures v.CInt? ==> r == Ok(v.i)
    ensures r.Throws? ==> r.exception == ClassCast
  {
    match v
    case CNull => Ok(0)
    case CInt(i) => Ok(i)
    case _ => Throws(ClassCast)
  }

  /** TaskUtils.getIntegerTaskProgress. */
  function IntegerTaskProgress(tp: TaskProgress): Result<int32>
    reads tp
  {
    IntegerProgress(tp.progress)
  }

  /** TaskUtils.incrementIntegerTaskProgress: reads the progress, stores one
      more as an Integer and returns it. A value that fails the cast leaves the
      record untouched. The completed flag never changes. */
  method IncrementIntegerTaskProgress(tp: TaskProgress) returns (r: Result<int32>)
    modifies tp
    ensures old(IntegerTaskProgress(tp)).Ok? ==>
              r == Ok(Succ(old(IntegerTaskProgress(tp)).value)) && tp.progress == CInt(r.value)
    ensures old(IntegerTaskProgress(tp)).Throws? ==>
              r == old(IntegerTaskProgress(tp)) && tp.progress == old(tp.progress)
    ensures tp.completed == old(tp.completed)
    ensures r.Ok? ==> IntegerTaskProgress(tp) == r
  {
    var current := IntegerTaskProgress(tp);
    if current.Throws? {
      return Throws(current.exception);
    }
    var progress := Succ(current.value);
    tp.progress := CInt(progress);
    return Ok(progress);
  }

  /** TaskUtils.decrementIntegerTaskProgress: as incrementing, one less; there
      is no floor at zero. */
  method DecrementIntegerTaskProgress(tp: TaskProgress) returns (r: Result<int32>)
    modifies tp
    ensures old(IntegerTaskProgress(tp)).Ok? ==>
              r == Ok(Pred(old(IntegerTaskProgress(tp)).value)) && tp.progress == CInt(r.value)
    ensures old(IntegerTaskProgress(tp)).Throws? ==>
              r == old(IntegerTaskProgress(tp)) && tp.progress == old(tp.progress)
    ensures tp.completed == old(tp.completed)
    ensures r.Ok? ==> IntegerTaskProgress(tp) == r
  {
    var current := IntegerTaskProgress(tp);
    if current.Throws? {
      return Throws(current.exception);
    }
    var progress := Pred(current.value);
    tp.progress := CInt(progress);
    return Ok(progress);
  }

  /** Below Integer.MAX_VALUE an increment adds exactly one, and above
      Integer.MIN_VALUE a decrement takes exactly one, so a decrement from 0
      gives -1; at the ends the counter wraps around. */
  lemma CounterSteps(n: int32)
    ensures n as int < MAX_INT ==> Succ(n) as int == n as int + 1
    ensures n as int > MIN_INT ==> Pred(n) as int == n as int - 1
    ensures n as int == MAX_INT ==> Succ(n) as int == MIN_INT
    ensures n as int == MIN_INT ==> Pred(n) as int == MAX_INT
    ensures n == 0 ==> Pred(n) as int == -1
  {
  }

  /** Absent progress counts from zero: the first increment stores 1 and the
      first decrement stores -1. */
  lemma AbsentProgressCountsFromZero()
    ensures IntegerProgress(CNull) == Ok(0)
    ensures Succ(IntegerProgress(CNull).value) == 1
    ensures Pred(IntegerProgress(CNull).value) == -1
  {
  }

  /** An increment followed by a decrement, or the other way round, reads back
      the progress read before, wrap-around included. */
  lemma IncrementDecrementRestores(v: Value)
    requires IntegerProgress(v).Ok?
    ensures IntegerProgress(CInt(Pred(Succ(IntegerProgress(v).value)))) == IntegerProgress(v)
    ensures IntegerProgress(CInt(Succ(Pred(IntegerProgress(v).value)))) == IntegerProgress(v)
  {
    SuccPredInverse(IntegerProgress(v).value);
  }
}
