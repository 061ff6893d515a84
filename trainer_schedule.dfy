/** Integer scheduling helpers of the trainer (metta/rl/functions.py): the
    rollout batch arithmetic and the epoch/rank gate for periodic tasks.
    Python's `//` and `%` round toward negative infinity and raise
    ZeroDivisionError on a zero divisor; both are written out here. */
module TrainerSchedule {

  datatype Outcome<T> = Ok(value: T) | ZeroDivisionError

  /** Python's `a // b` for `b != 0`: the floor of the real quotient. With a
      positive divisor it is Dafny's `/`; a negative one flips both signs. */
  function FloorDiv(a: int, b: int): (q: int)
    requires b != 0
    ensures b > 0 ==> b * q <= a < b * q + b
    ensures b < 0 ==> b * q + b < a <= b * q
  {
    if b > 0 then a / b else (-a) / (-b)
  }

  /** Python's `a % b` for `b != 0`: takes the sign of the divisor and
      completes the floor quotient. */
  function FloorMod(a: int, b: int): (r: int)
    requires b != 0
    ensures a == b * FloorDiv(a, b) + r
    ensures b > 0 ==> 0 <= r < b
    ensures b < 0 ==> b < r <= 0
  {
    if b > 0 then a % b else -((-a) % (-b))
  }

  /** A zero remainder says exactly that the divisor divides the dividend. */
  lemma FloorModZero(a: int, b: int, k: int)
    requires b != 0
    ensures a == b * k ==> FloorMod(a, b) == 0
    ensures FloorMod(a, b) == 0 ==> a == b * FloorDiv(a, b)
  {
    if a == b * k {
      if b > 0 {
        ModOfMultiple(b, k);
      } else {
        assert -a == (-b) * k;
        ModOfMultiple(-b, k);
      }
    }
  }

  /** Dafny's remainder of a multiple of a positive divisor is zero. */
  lemma ModOfMultiple(b: int, k: int)
    requires b > 0
    ensures (b * k) % b == 0
  {
    var d := k - (b * k) / b;
    assert b * d == (b * k) % b;
    if d >= 1 {
      MulAtLeast(b, d);
    } else if d <= -1 {
      MulAtLeast(b, -d);
    }
  }

  lemma MulAtLeast(b: int, d: int)
    requires b > 0 && d >= 1
    ensures b * d >= b
  {
  }

  /** The triple returned by calculate_batch_sizes. */
  datatype BatchSizes = BatchSizes(targetBatchSize: int, batchSize: int, numEnvs: int)

  function Max(a: int, b: int): int { if a >= b then a else b }

  /** calculate_batch_sizes: the per-agent target (raised to the worker
      count when the division leaves it below two or below the worker
      count), that target rounded down to a multiple of the worker count,
      and the number of environments for the asynchronous factor. */
  function CalculateBatchSizes(forwardPassMinibatchTargetSize: int, numAgents: int,
                               numWorkers: int, asyncFactor: int): (r: Outcome<BatchSizes>)
    ensures r.ZeroDivisionError? <==> numAgents == 0 || numWorkers == 0
  {
    if numAgents == 0 then ZeroDivisionError
    else
      var perAgent := FloorDiv(forwardPassMinibatchTargetSize, numAgents);
      var target := if perAgent < Max(2, numWorkers) then numWorkers else perAgent;
      if numWorkers == 0 then ZeroDivisionError
      else
        var batch := FloorDiv(target, numWorkers) * numWorkers;
        Ok(BatchSizes(target, batch, batch * asyncFactor))
  }

  /** The target is the per-agent share when that share is at least two and
      at least the worker count, and the worker count otherwise; so it is
      never below the worker count. */
  lemma TargetBatchSize(forwardPassMinibatchTargetSize: int, numAgents: int,
                        numWorkers: int, asyncFactor: int)
    requires numAgents != 0 && numWorkers != 0
    ensures var r := CalculateBatchSizes(forwardPassMinibatchTargetSize, numAgents, numWorkers, asyncFactor);
            var perAgent := FloorDiv(forwardPassMinibatchTargetSize, numAgents);
            && r.Ok?
            && r.value.targetBatchSize >= numWorkers
            && (perAgent >= 2 && perAgent >= numWorkers ==> r.value.targetBatchSize == perAgent)
            && (perAgent < 2 || perAgent < numWorkers ==> r.value.targetBatchSize == numWorkers)
  {
  }

  /** With a positive worker count the batch is the largest multiple of the
      worker count not above the target, hence between 0 and the target. */
  lemma BatchSizeIsMultiple(forwardPassMinibatchTargetSize: int, numAgents: int,
                            numWorkers: int, asyncFactor: int)
    requires numAgents != 0 && numWorkers > 0
    ensures var r := CalculateBatchSizes(forwardPassMinibatchTargetSize, numAgents, numWorkers, asyncFactor);
            && r.Ok?
            && FloorMod(r.value.batchSize, numWorkers) == 0
            && 0 <= r.value.batchSize <= r.value.targetBatchSize < r.value.batchSize + numWorkers
            && r.value.numEnvs == r.value.batchSize * asyncFactor
  {
    TargetBatchSize(forwardPassMinibatchTargetSize, numAgents, numWorkers, asyncFactor);
    var r := CalculateBatchSizes(forwardPassMinibatchTargetSize, numAgents, numWorkers, asyncFactor);
    RoundDown(r.value.targetBatchSize, numWorkers);
  }

  /** Rounding a target of at least one worker count down to a multiple of it. */
  lemma RoundDown(target: int, numWorkers: int)
    requires 0 < numWorkers <= target
    ensures var batch := FloorDiv(target, numWorkers) * numWorkers;
            FloorMod(batch, numWorkers) == 0 && 0 <= batch <= target < batch + numWorkers
  {
    var q := FloorDiv(target, numWorkers);
    assert q * numWorkers == numWorkers * q;
    FloorModZero(q * numWorkers, numWorkers, q);
  }

  /** The configuration worked through in the trainer: 512 rows of forward
      pass for 4 agents on 8 workers, two environments per worker slot. */
  lemma CalculateBatchSizesExample()
    ensures CalculateBatchSizes(512, 4, 8, 2) == Ok(BatchSizes(128, 128, 256))
    ensures CalculateBatchSizes(10, 8, 4, 3) == Ok(BatchSizes(4, 4, 12))
    ensures CalculateBatchSizes(512, 0, 8, 2) == ZeroDivisionError
    ensures CalculateBatchSizes(512, 4, 0, 2) == ZeroDivisionError
  {
  }

  /** should_run_on_interval: only the master rank runs periodic tasks, and
      only with a non-zero interval; a forced run then always happens, an
      unforced one on the epochs the interval divides. */
  function ShouldRunOnInterval(epoch: int, interval: int, isMaster: bool, force: bool): (r: bool)
    ensures !isMaster || interval == 0 ==> !r
    ensures isMaster && interval != 0 && force ==> r
  {
    if !isMaster || interval == 0 then false
    else if force then true
    else FloorMod(epoch, interval) == 0
  }

  /** Every multiple of the interval is a run epoch for the master. */
  lemma RunsOnMultiples(k: int, interval: int)
    requires interval != 0
    ensures ShouldRunOnInterval(k * interval, interval, true, false)
  {
    FloorModZero(k * interval, interval, k);
  }

  /** Every unforced run epoch is a multiple of the interval. */
  lemma RunsOnlyOnMultiples(epoch: int, interval: int)
    requires ShouldRunOnInterval(epoch, interval, true, false)
    ensures interval != 0 && epoch == FloorDiv(epoch, interval) * interval
  {
    FloorModZero(epoch, interval, 0);
  }

  /** The unforced gate repeats with the interval's period. */
  lemma RunsPeriodically(epoch: int, interval: int)
    requires interval != 0
    ensures ShouldRunOnInterval(epoch + interval, interval, true, false)
            == ShouldRunOnInterval(epoch, interval, true, false)
  {
    var q := FloorDiv(epoch, interval);
    if ShouldRunOnInterval(epoch, interval, true, false) {
      FloorModZero(epoch, interval, 0);
      assert epoch + interval == interval * (q + 1);
      FloorModZero(epoch + interval, interval, q + 1);
    }
    if ShouldRunOnInterval(epoch + interval, interval, true, false) {
      var q1 := FloorDiv(epoch + interval, interval);
      FloorModZero(epoch + interval, interval, 0);
      assert epoch == interval * (q1 - 1);
      FloorModZero(epoch, interval, q1 - 1);
    }
  }

  lemma ShouldRunOnIntervalExample()
    ensures ShouldRunOnInterval(10, 5, true, false)
    ensures !ShouldRunOnInterval(11, 5, true, false)
    ensures ShouldRunOnInterval(11, 5, true, true)
    ensures !ShouldRunOnInterval(10, 5, false, true)
    ensures !ShouldRunOnInterval(10, 0, true, true)
  {
    RunsOnMultiples(2, 5);
  }
}
