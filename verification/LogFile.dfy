/** log/FileUtil.cpp and log/LogFile.cpp. `fwrite` takes what the schedule says; exhausted, it takes all. */
module LogFile {

  /** One `fwrite` of `len` bytes. */
  function FWrite(shorts: seq<nat>, len: nat): (n: nat)
    ensures n <= len
  {
    if shorts == [] || shorts[0] > len then len else shorts[0]
  }

  function Later(shorts: seq<nat>): seq<nat> { if shorts == [] then [] else shorts[1..] }

  /** What the retry loop still gets out when `remain` bytes are left: it gives up on the first 0. */
  function Retried(shorts: seq<nat>, remain: nat): (n: nat)
    ensures n <= remain
    decreases remain
  {
    if remain == 0 then 0
    else
      var x := FWrite(shorts, remain);
      if x == 0 then 0 else x + Retried(Later(shorts), remain - x)
  }

  /** The bytes of one `append` that reach the file; a first write of 0 is tried again. */
  function Written(shorts: seq<nat>, len: nat): (n: nat)
    ensures n <= len
  {
    var n := FWrite(shorts, len);
    n + Retried(Later(shorts), len - n)
  }

  /** The file fails when a retry with bytes left takes nothing. */
  predicate RetryFails(shorts: seq<nat>, remain: nat)
    decreases remain
  {
    remain > 0 && shorts != [] && (shorts[0] == 0 || (shorts[0] < remain && RetryFails(shorts[1..], remain - shorts[0])))
  }

  predicate FileFails(shorts: seq<nat>, len: nat) {
    shorts != [] && shorts[0] < len && RetryFails(shorts[1..], len - shorts[0])
  }

  lemma {:induction false} RetriedExact(shorts: seq<nat>, remain: nat)
    ensures Retried(shorts, remain) == remain <==> !RetryFails(shorts, remain)
    decreases remain
  {
    if remain > 0 && shorts != [] && shorts[0] != 0 {
      RetriedExact(Later(shorts), remain - FWrite(shorts, remain));
    } else if remain > 0 && shorts == [] {
      assert Retried(Later(shorts), 0) == 0;
    }
  }

  /** Everything is written exactly when no retry comes back with nothing. */
  lemma WrittenExact(shorts: seq<nat>, len: nat)
    ensures Written(shorts, len) == len <==> !FileFails(shorts, len)
  {
    var n := FWrite(shorts, len);
    RetriedExact(Later(shorts), len - n);
  }

  predicate Progresses(shorts: seq<nat>) { forall i | 0 <= i < |shorts| :: shorts[i] > 0 }

  lemma {:induction false} ProgressRetries(shorts: seq<nat>, remain: nat)
    requires Progresses(shorts)
    ensures !RetryFails(shorts, remain)
    decreases remain
  {
    if remain > 0 && shorts != [] && 0 < shorts[0] < remain { ProgressRetries(shorts[1..], remain - shorts[0]); }
  }

  /** A file that always takes something takes everything. */
  lemma ProgressNeverFails(shorts: seq<nat>, len: nat)
    requires Progresses(shorts)
    ensures !FileFails(shorts, len) && Written(shorts, len) == len
  {
    if shorts != [] && shorts[0] < len { ProgressRetries(shorts[1..], len - shorts[0]); }
    WrittenExact(shorts, len);
  }

  class FileUtil {
    /** What stdio has taken, and how much of it has been flushed. */
    var content: string
    var flushed: nat

    constructor ()
      ensures content == "" && flushed == 0
    {
      content, flushed := "", 0;
    }

    method Write(msg: string, shorts: seq<nat>) returns (n: nat)
      modifies this`content
      ensures n == FWrite(shorts, |msg|) && content == old(content) + msg[..n]
    {
      n := FWrite(shorts, |msg|);
      content := content + msg[..n];
    }

    method Append(msg: string, shorts: seq<nat>)
      modifies this`content
      ensures content == old(content) + msg[..Written(shorts, |msg|)]
    {
      var n := Write(msg, shorts);
      var remain: nat := |msg| - n;
      var later := Later(shorts);
      while remain > 0
        invariant n + remain == |msg| && content == old(content) + msg[..n]
        invariant n + Retried(later, remain) == Written(shorts, |msg|)
      {
        var x := Write(msg[n..], later);
        if x == 0 { break; }
        assert msg[..n] + msg[n..][..x] == msg[..n + x];
        later := Later(later);
        n := n + x;
        remain := remain - x;
      }
    }

    method Flush()
      modifies this`flushed
      ensures flushed == |content|
    {
      flushed := |content|;
    }
  }

  class LogFile {
    const flushEveryN: int
    const file: FileUtil
    var count: int
    /** Appends since the last flush. */
    ghost var unflushed: nat

    ghost predicate Valid()
      reads this, file
    {
      && 0 <= unflushed <= count
      && count < (if flushEveryN > 1 then flushEveryN else 1)
      && (unflushed == 0 ==> file.flushed == |file.content|)
    }

    constructor (flushEveryN: int)
      ensures Valid() && fresh(file) && file.content == "" && file.flushed == 0 && count == 0 && this.flushEveryN == flushEveryN
    {
      this.flushEveryN := flushEveryN;
      file := new FileUtil();
      count, unflushed := 0, 0;
    }

    /** Never `flushEveryN` or more appends unflushed between calls. */
    method Append(msg: string, shorts: seq<nat>)
      requires Valid()
      modifies this`count, this`unflushed, file
      ensures Valid() && file.content == old(file.content) + msg[..Written(shorts, |msg|)]
      ensures if old(count) + 1 >= flushEveryN then count == 0 && unflushed == 0 && file.flushed == |file.content|
        else count == old(count) + 1 && unflushed == old(unflushed) + 1 && file.flushed == old(file.flushed)
      ensures flushEveryN >= 1 ==> unflushed < flushEveryN
    {
      file.Append(msg, shorts);
      count := count + 1;
      unflushed := unflushed + 1;
      if count >= flushEveryN {
        count := 0;
        file.Flush();
        unflushed := 0;
      }
    }

    /** The counter is not reset, so flushes only come earlier. */
    method Flush()
      requires Valid()
      modifies this`unflushed, file`flushed
      ensures Valid() && unflushed == 0 && file.flushed == |file.content|
    {
      file.Flush();
      unflushed := 0;
    }
  }
}
