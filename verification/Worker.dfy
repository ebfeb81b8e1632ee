/** The execution chain of dlmgr/worker.rs: one task, two sources, a shared
    budget of retries, and a sink that downloads into a VFS. */
module Worker {
  import opened Crc
  import opened Spans
  import opened Wrappers
  import opened Files
  import opened Format
  import opened Entries
  import opened Engine
  import opened IndexMap
  import opened VfsEngine
  import opened Glue
  import opened Tasks

  // --- state transfer between attempts ---

  /** cr is the Content-Range as (start, total), clen the Content-Length or -1. */
  datatype AttemptOutcome =
    | WasCanceled
    | SinkError
    | GateFail(kind: TaskErr)
    | HttpOk(resp: int, cr: Option<(nat, nat)>, clen: int, complete: bool, crcOk: bool)
    | NetErr(timedOut: bool)

  datatype Decision = Finish | Resume | RestartFromZero | Fallback(kind: TaskErr) | Fail(err: TaskErr)

  /** The response proves nothing wrong and the stream is whole. */
  predicate Accepts(out: AttemptOutcome, rangePhase: bool, size: nat) {
    && out.HttpOk? && out.complete && out.crcOk
    && if rangePhase then out.resp == 206 && out.cr.Some? && out.cr.value.1 == size
       else 200 <= out.resp < 300 && (out.clen < 0 || out.clen == size)
  }

  /** Why the range source cannot be what the task describes. */
  function Distrust(out: AttemptOutcome, size: nat): Option<TaskErr> {
    match out
    case GateFail(k) => Some(k)
    case HttpOk(resp, cr, _, complete, crcOk) =>
      if resp != 206 then Some(UnsupportedRange)
      else if cr.None? || cr.value.1 != size then Some(SizeMismatch)
      else if complete && !crcOk then Some(CrcMismatch)
      else None
    case _ => None
  }

  /** A failure of the connection rather than of the source. */
  function Dropped(out: AttemptOutcome): TaskErr {
    if out.NetErr? && out.timedOut then Timeout else Network
  }

  /** What is wrong with an answer of the full source. */
  function FullBlame(out: AttemptOutcome, size: nat): TaskErr {
    match out
    case GateFail(k) => k
    case HttpOk(resp, _, clen, complete, _) =>
      if !(200 <= resp < 300) then Network
      else if clen >= 0 && clen != size then SizeMismatch
      else if complete then CrcMismatch else Network
    case _ => Dropped(out)
  }

  /** What each blame says about an answer, read from the blame back to the
      answer: an unknown length is never a size mismatch, a wrong checksum is
      only blamed on a whole stream, and a timeout only on the connection. */
  lemma BlameMeans(out: AttemptOutcome, size: nat)
    requires Sane(out)
    ensures Distrust(out, size) == Some(UnsupportedRange) <==>
      out == GateFail(UnsupportedRange) || (out.HttpOk? && out.resp != 206)
    ensures Distrust(out, size) == Some(SizeMismatch) <==>
      out == GateFail(SizeMismatch) || (out.HttpOk? && out.resp == 206 && (out.cr.None? || out.cr.value.1 != size))
    ensures Distrust(out, size) == Some(CrcMismatch) <==>
      out.HttpOk? && out.resp == 206 && out.cr.Some? && out.cr.value.1 == size && out.complete && !out.crcOk
    ensures Distrust(out, size).Some? ==> Distrust(out, size).value in {UnsupportedRange, SizeMismatch, CrcMismatch}
    ensures FullBlame(out, size) == SizeMismatch <==>
      out == GateFail(SizeMismatch) || (out.HttpOk? && 200 <= out.resp < 300 && out.clen >= 0 && out.clen != size)
    ensures FullBlame(out, size) == CrcMismatch <==>
      out.HttpOk? && 200 <= out.resp < 300 && (out.clen < 0 || out.clen == size) && out.complete
    ensures FullBlame(out, size) == UnsupportedRange <==> out == GateFail(UnsupportedRange)
    ensures FullBlame(out, size) == Timeout <==> out.NetErr? && out.timedOut
    ensures FullBlame(out, size) in {UnsupportedRange, SizeMismatch, CrcMismatch, Network, Timeout}
    ensures out.HttpOk? || out.NetErr? ==> (Dropped(out) == Timeout <==> out.NetErr? && out.timedOut)
    ensures Dropped(out) in {Network, Timeout}
  {
  }

  /** The gates blame the source. */
  predicate Sane(out: AttemptOutcome) {
    out.GateFail? ==> out.kind == UnsupportedRange || out.kind == SizeMismatch
  }

  /** What a failed attempt on the range source leads to. */
  predicate RangeLaw(out: AttemptOutcome, size: nat, retryCount: nat, fallbackUsed: bool, retries: nat, d: Decision,
      lastErr: TaskErr) {
    var why, more := Distrust(out, size), retries < retryCount;
    if why.None? then
      && lastErr == Dropped(out)
      && d == (if more then Resume else if fallbackUsed then Fail(lastErr) else Fallback(lastErr))
    else
      && lastErr == why.value
      && d == (if !fallbackUsed || out.HttpOk? then Fallback(lastErr)
               else if more then RestartFromZero else Fail(lastErr))
  }

  class RunState {
    var rangePhase: bool
    var fallbackUsed: bool
    var retries: nat
    var lastErr: TaskErr

    constructor ()
      ensures rangePhase && !fallbackUsed && retries == 0 && lastErr == NoErr
    {
      rangePhase, fallbackUsed, retries, lastErr := true, false, 0, NoErr;
    }

    /** transition: the budget, the one-way fallback and who is blamed. */
    method Transition(out: AttemptOutcome, size: nat, retryCount: nat) returns (d: Decision)
      modifies this`retries, this`lastErr
      ensures retries == old(retries) + (if d.Resume? || d.RestartFromZero? then 1 else 0)
      ensures d.Resume? || d.RestartFromZero? ==> old(retries) < retryCount
      ensures d.Finish? <==>
        && out.HttpOk? && out.complete && out.crcOk
        && (if rangePhase then out.resp == 206 && out.cr.Some? && out.cr.value.1 == size
            else 200 <= out.resp < 300 && (out.clen < 0 || out.clen == size))
      ensures out.WasCanceled? ==> d == Fail(CanceledErr)
      ensures out.SinkError? ==> d == Fail(Network)
      ensures d.Resume? || d.Fallback? ==> rangePhase
      ensures d.Finish? ==> out.HttpOk? && out.complete && out.crcOk
      ensures Sane(out) && rangePhase != fallbackUsed ==>
        && (d.Fail? ==> d.err != NoErr && (d.err == CanceledErr <==> out.WasCanceled?))
        && (d.Fallback? ==> d.kind != NoErr && d.kind != CanceledErr)
      ensures out.WasCanceled? || out.SinkError? || d.Finish? ==> lastErr == old(lastErr)
      // the range source: distrust it for good, else the connection is retried
      ensures rangePhase && !d.Finish? && !out.WasCanceled? && !out.SinkError? ==>
        RangeLaw(out, size, retryCount, fallbackUsed, old(retries), d, lastErr)
      ensures rangePhase && !fallbackUsed && !d.Finish? && !out.WasCanceled? && !out.SinkError? ==>
        && (d.Fallback? <==> Distrust(out, size).Some? || old(retries) >= retryCount)
        && (d.Resume? <==> Distrust(out, size).None? && old(retries) < retryCount)
        && (d.Fallback? ==> d.kind == lastErr) && (Distrust(out, size).Some? ==> Some(lastErr) == Distrust(out, size))
        && (Distrust(out, size).None? ==> lastErr == Dropped(out))
      // the full source: every failure costs a retry
      ensures !rangePhase && !d.Finish? && !out.WasCanceled? && !out.SinkError? ==>
        lastErr == FullBlame(out, size)
        && d == if old(retries) < retryCount then RestartFromZero else Fail(FullBlame(out, size))
    {
      match out
      case WasCanceled => d := Fail(CanceledErr);
      case SinkError => d := Fail(Network);
      case GateFail(kind) =>
        lastErr := kind;
        if rangePhase && !fallbackUsed {
          d := Fallback(kind);
        } else if retries < retryCount {
          retries := retries + 1;
          d := RestartFromZero;
        } else {
          d := Fail(kind);
        }
      case HttpOk(resp, cr, clen, complete, crcOk) =>
        if rangePhase {
          if resp != 206 {
            lastErr := UnsupportedRange;
            return Fallback(UnsupportedRange);
          }
          if cr.None? || cr.value.1 != size {
            lastErr := SizeMismatch;
            return Fallback(SizeMismatch);
          }
          if complete {
            if crcOk {
              return Finish;
            }
            lastErr := CrcMismatch;
            return Fallback(CrcMismatch);
          }
          d := NetRetry(Network, retryCount);
        } else {
          if 200 <= resp < 300 {
            if clen >= 0 && clen != size {
              lastErr := SizeMismatch;
            } else if complete && crcOk {
              return Finish;
            } else if complete {
              lastErr := CrcMismatch;
            } else {
              lastErr := Network;
            }
          } else {
            lastErr := Network;
          }
          if retries < retryCount {
            retries := retries + 1;
            d := RestartFromZero;
          } else {
            d := Fail(lastErr);
          }
        }
      case NetErr(timedOut) =>
        d := NetRetry(if timedOut then Timeout else Network, retryCount);
    }

    method NetRetry(err: TaskErr, retryCount: nat) returns (d: Decision)
      modifies this`retries, this`lastErr
      ensures lastErr == err
      ensures retries == old(retries) + (if old(retries) < retryCount then 1 else 0)
      ensures d == if old(retries) < retryCount then (if rangePhase then Resume else RestartFromZero)
                   else if rangePhase && !fallbackUsed then Fallback(err) else Fail(err)
    {
      lastErr := err;
      if retries < retryCount {
        retries := retries + 1;
        d := if rangePhase then Resume else RestartFromZero;
      } else if rangePhase && !fallbackUsed {
        d := Fallback(err);
      } else {
        d := Fail(err);
      }
    }
  }

  // --- a task ---

  /** A stored state as others may see it: the error beside it, and whether the
      task's sink has no writer open at that moment. */
  datatype Seen = Seen(state: TaskState, err: TaskErr, closed: bool)

  class Task {
    const size: nat
    const crc: u32
    const hasFullUrl: bool
    var state: TaskState
    var err: TaskErr
    var bytesDone: nat
    var cancel: bool
    /** Every state that was stored. */
    ghost var trace: seq<Seen>

    constructor (size: nat, crc: u32, hasFullUrl: bool)
      ensures this.size == size && this.crc == crc && this.hasFullUrl == hasFullUrl
      ensures state == Pending && err == NoErr && bytesDone == 0 && !cancel && trace == []
    {
      this.size, this.crc, this.hasFullUrl := size, crc, hasFullUrl;
      state, err, bytesDone, cancel, trace := Pending, NoErr, 0, false, [];
    }

    method SetState(st: TaskState, ghost s: VfsSink)
      modifies this`state, this`trace
      ensures state == st && trace == old(trace) + [Seen(st, err, s.writer == null)]
    {
      state := st;
      trace := trace + [Seen(st, err, s.writer == null)];
    }

    /** terminal: the error first, so that whoever sees the state sees it too. */
    method End(canceled: bool, e: TaskErr, ghost s: VfsSink)
      modifies this`err, this`state, this`trace
      ensures err == (if canceled then CanceledErr else e) && state == (if canceled then Canceled else Failed)
      ensures trace == old(trace) + [Seen(state, err, s.writer == null)]
    {
      if canceled {
        err := CanceledErr;
        SetState(Canceled, s);
      } else {
        err := e;
        SetState(Failed, s);
      }
    }

    method Complete(ghost s: VfsSink)
      modifies this`err, this`state, this`trace
      ensures err == NoErr && state == Done && trace == old(trace) + [Seen(Done, NoErr, s.writer == null)]
    {
      err := NoErr;
      SetState(Done, s);
    }
  }

  /** off, the running checksum and the progress describe one prefix of what
      the sink holds. */
  ghost predicate Streaming(t: Task, s: VfsSink, off: nat, crc: u32)
    reads t`bytesDone, s, s.vfs, s.vfs.idx, s.writer
  {
    && s.Valid() && s.writer != null && s.writer.size == t.size
    && off <= |s.writer.body| && off <= t.size
    && crc == Update(0, s.writer.body[..off]) && t.bytesDone == off
  }

  /** Every byte was written once, in order. */
  ghost predicate Straight(s: VfsSink, off: nat)
    reads s, s.writer
  {
    s.writer != null ==> |s.writer.body| == off && !s.writer.crcDirty
  }

  /** That prefix. */
  ghost function Prefix(s: VfsSink, off: nat): seq<u8>
    reads s, s.writer
  {
    if s.writer != null && off <= |s.writer.body| then s.writer.body[..off] else []
  }

  /** Between any two steps others may use the container or cancel the task. */
  method Meanwhile(t: Task, s: VfsSink, ghost off: nat, ghost crc: u32)
    requires Streaming(t, s, off, crc)
    modifies t`cancel, s.vfs, s.vfs.idx
    ensures Streaming(t, s, off, crc) && s.vfs.idx == old(s.vfs.idx)
  {
    hide EngineOk, WriterOk, Raw;
    var c: bool := *;
    if c {
      t.cancel := true;
    }
    Others(s.writer);
  }

  /** The context of the write callback during one attempt. resp is the status
      that the callback can ask for. */
  class WriteCtx {
    const total: nat
    const rangeMode: bool
    const resp: int
    var off: nat
    var crc: u32
    var bad: nat
    var ioErr: bool

    constructor (total: nat, rangeMode: bool, resp: int, off: nat, crc: u32)
      ensures this.total == total && this.rangeMode == rangeMode && this.resp == resp
      ensures this.off == off && this.crc == crc && bad == 0 && !ioErr
    {
      this.total, this.rangeMode, this.resp, this.off, this.crc := total, rangeMode, resp, off, crc;
      bad, ioErr := 0, false;
    }
  }

  /** Writing at the end of a prefix prolongs it, whatever lay behind. */
  lemma PrefixGrows(body: seq<u8>, off: nat, chunk: seq<u8>)
    requires off <= |body|
    ensures var b := Pwrite(body, off, chunk);
      && off + |chunk| <= |b| && b[..off + |chunk|] == body[..off] + chunk
      && Update(0, b[..off + |chunk|]) == Update(Update(0, body[..off]), chunk)
  {
    hide Raw;
    assert Pwrite(body, off, chunk)[..off + |chunk|] == body[..off] + chunk;
    UpdateConcat(0, body[..off], chunk);
  }

  /** One portion: sink, checksum, offset and progress move together. The sink
      can fail only with the file system; it never sees a gap or an overrun. */
  method Portion(c: WriteCtx, t: Task, s: VfsSink, chunk: seq<u8>) returns (code: nat)
    requires Streaming(t, s, c.off, c.crc) && c.total == t.size && chunk != [] && c.off + |chunk| <= c.total
    modifies c`off, c`crc, c`ioErr, t`bytesDone, s.vfs`data, s.writer
    ensures Streaming(t, s, c.off, c.crc)
    ensures code == 0 ==> c.off == old(c.off) + |chunk| && c.ioErr == old(c.ioErr)
    ensures code == 0 ==> Prefix(s, c.off) == old(Prefix(s, c.off)) + chunk
    ensures code != 0 ==> code == Code(Io) && c.off == old(c.off) && c.ioErr
    ensures old(Straight(s, c.off)) ==> Straight(s, c.off)
  {
    hide EngineOk, WriterOk, Raw, Pwrite, Finds, ViewOf, EntriesFit;
    PrefixGrows(s.writer.body, c.off, chunk);
    code := s.Write(c.off, chunk);
    if code != 0 {
      c.ioErr := true;
      return;
    }
    c.crc := Update(c.crc, chunk);
    c.off := c.off + |chunk|;
    t.bytesDone := t.bytesDone + |chunk|;
  }

  /** write_cb: passes a received block to the sink in the portions that the
      limiter allows. 0 for a non-empty block aborts the transfer. */
  method WriteCallback(c: WriteCtx, t: Task, s: VfsSink, data: seq<u8>) returns (n: nat, ghost refused: bool)
    requires Streaming(t, s, c.off, c.crc) && c.total == t.size && c.bad <= 2
    modifies c, t`cancel, t`bytesDone, s.vfs, s.vfs.idx, s.writer
    ensures Streaming(t, s, c.off, c.crc) && s.vfs.idx == old(s.vfs.idx)
    ensures c.bad <= 2 && (n == |data| || n == 0) && old(c.off) <= c.off
    // an abort has a reason: canceled, a gate, the sink, or the limiter
    ensures n != |data| ==> t.cancel || c.bad != 0 || c.ioErr || refused
    ensures c.bad == 1 && old(c.bad) != 1 ==> c.rangeMode && c.resp != 206
    ensures c.bad == 2 && old(c.bad) != 2 ==> c.off + |data| > c.total
    ensures n == |data| ==> c.off == old(c.off) + n && Prefix(s, c.off) == old(Prefix(s, c.off)) + data
    ensures c.rangeMode && c.resp != 206 ==> c.off == old(c.off) && (s.writer != null ==> unchanged(s.writer))
    ensures old(Straight(s, c.off)) ==> Straight(s, c.off)
  {
    hide EngineOk, WriterOk, Raw, Finds, ViewOf, EntriesFit, Streaming, Prefix, Straight;
    n, refused := 0, false;
    if data == [] {
      return;
    }
    if t.cancel || c.bad != 0 || c.ioErr {
      return;
    }
    if c.rangeMode {
      if c.resp != 206 {
        c.bad := 1;
        return;
      }
    }
    var p := 0;
    while p < |data|
      invariant 0 <= p <= |data| && c.off == old(c.off) + p && c.bad == 0
      invariant Streaming(t, s, c.off, c.crc) && s.vfs.idx == old(s.vfs.idx)
      invariant Prefix(s, c.off) == old(Prefix(s, c.off)) + data[..p]
      invariant old(Straight(s, c.off)) ==> Straight(s, c.off)
    {
      Meanwhile(t, s, c.off, c.crc);
      if t.cancel {
        return;
      }
      var left := |data| - p;
      var allow :| 0 <= allow;
      if allow == 0 || allow > left {
        refused := true;
        return;
      }
      if c.off + allow > c.total {
        c.bad := 2;
        return;
      }
      assert data[..p + allow] == data[..p] + data[p..p + allow];
      var code := Portion(c, t, s, data[p..p + allow]);
      if code != 0 {
        return;
      }
      p := p + allow;
    }
    n := |data|;
  }

  // --- one connection ---

  /** perform_attempt: any sequence of received blocks, any answer. off and crc
      come back with what a failed attempt received, for the next one. */
  method PerformAttempt(t: Task, s: VfsSink, rangePhase: bool, off0: nat, crc0: u32)
    returns (out: AttemptOutcome, off: nat, crc: u32)
    requires Streaming(t, s, off0, crc0)
    modifies t`cancel, t`bytesDone, s.vfs, s.vfs.idx, s.writer
    ensures Streaming(t, s, off, crc) && s.vfs.idx == old(s.vfs.idx) && off0 <= off
    ensures out.HttpOk? ==> (out.complete <==> off == t.size) && (out.crcOk <==> crc == t.crc)
    ensures Sane(out) && (out.HttpOk? ==> !t.cancel)
    ensures !rangePhase ==> out.HttpOk? ==> out.cr.None?
    ensures old(Straight(s, off0)) ==> Straight(s, off)
  {
    hide Streaming, Straight;
    off, crc := off0, crc0;
    var setUp: bool := *;
    if !setUp {
      return NetErr(false), off, crc;
    }
    var resp: int := *;
    var c := new WriteCtx(t.size, rangePhase, resp, off, crc);
    var failed := Transfer(c, t, s);
    off, crc := c.off, c.crc;
    if t.cancel {
      return WasCanceled, off, crc;
    }
    if c.ioErr {
      return SinkError, off, crc;
    }
    if c.bad == 1 {
      return GateFail(UnsupportedRange), off, crc;
    } else if c.bad == 2 {
      return GateFail(SizeMismatch), off, crc;
    }
    if failed {
      var timedOut: bool := *;
      return NetErr(timedOut), off, crc;
    }
    var cr: Option<(nat, nat)> := None;
    if rangePhase {
      cr := AnyRange();
    }
    var clen: int := *;
    out := HttpOk(resp, cr, clen, off == t.size, crc == t.crc);
  }

  /** The Content-Range of an answer, if any. */
  method AnyRange() returns (cr: Option<(nat, nat)>) {
    var present: bool := *;
    if present {
      var start, total :| 0 <= start && 0 <= total;
      cr := Some((start, total));
    } else {
      cr := None;
    }
  }

  /** easy.perform: blocks arrive until the peer stops, the connection breaks
      or the callback refuses one. */
  method Transfer(c: WriteCtx, t: Task, s: VfsSink) returns (failed: bool)
    requires Streaming(t, s, c.off, c.crc) && c.total == t.size && c.bad == 0
    modifies c, t`cancel, t`bytesDone, s.vfs, s.vfs.idx, s.writer
    ensures Streaming(t, s, c.off, c.crc) && s.vfs.idx == old(s.vfs.idx) && c.bad <= 2 && old(c.off) <= c.off
    ensures old(Straight(s, c.off)) ==> Straight(s, c.off)
  {
    hide Streaming, Straight;
    failed := *;
    var blocks :| 0 <= blocks;
    for i := 0 to blocks
      invariant Streaming(t, s, c.off, c.crc) && s.vfs.idx == old(s.vfs.idx) && c.bad <= 2 && old(c.off) <= c.off
      invariant old(Straight(s, c.off)) ==> Straight(s, c.off)
    {
      var data: seq<u8> := *;
      var n;
      ghost var refused;
      n, refused := WriteCallback(c, t, s, data);
      if n != |data| {
        return true;
      }
    }
    Meanwhile(t, s, c.off, c.crc);
  }

  // --- the chain ---

  /** backoff_wait: 1, 2, then 4 seconds; false when canceled meanwhile. */
  method BackoffWait(t: Task, s: VfsSink, retryNo: nat, ghost off: nat, ghost crc: u32) returns (goOn: bool,
      ghost secs: nat)
    requires Streaming(t, s, off, crc)
    modifies t`cancel, s.vfs, s.vfs.idx
    ensures Streaming(t, s, off, crc) && s.vfs.idx == old(s.vfs.idx)
    ensures secs == Backoff(retryNo) && goOn == !t.cancel
  {
    hide Streaming;
    secs := Backoff(retryNo);
    Meanwhile(t, s, off, crc);
    goOn := !t.cancel;
  }

  function Backoff(retryNo: nat): (secs: nat)
    ensures 1 <= secs <= 4
  {
    if retryNo <= 1 then 1 else if retryNo == 2 then 2 else 4
  }

  /** The back-off of the first k retries. */
  function Waits(k: nat): nat {
    if k == 0 then 0 else Waits(k - 1) + Backoff(k)
  }

  /** One second, then two, then four each. */
  lemma {:induction false} WaitsAre(k: nat)
    ensures Waits(k) == if k == 0 then 0 else if k == 1 then 1 else 4 * k - 5
  {
    if k > 2 {
      WaitsAre(k - 1);
    }
  }

  /** The file is in the index: whole, with the task's checksum, and the bytes
      of its span have that checksum. */
  ghost predicate Delivered(t: Task, s: VfsSink)
    requires s.vfs.Valid()
    reads s.vfs, s.vfs.idx
  {
    exists e :: e in s.vfs.View().ents && e.name == s.name && e.Active() && e.size == t.size && e.crc == t.crc
             && |e.body| == t.size && Crc32(e.body) == t.crc && Holds(s.vfs.data, e.offset, e.body)
  }

  /** Finishing a stream whose prefix is the whole file with the right sum. */
  method FinishStream(t: Task, s: VfsSink, ghost off: nat, ghost crc: u32) returns (code: nat)
    requires Streaming(t, s, off, crc) && off == t.size && crc == t.crc
    modifies s`writer, s.writer, s.vfs, s.vfs.idx
    ensures s.Valid() && s.writer == null && s.vfs.idx == old(s.vfs.idx)
    ensures code == 0 ==> Delivered(t, s)
    ensures code != 0 ==> code == Code(Io) && !old(Straight(s, off))
  {
    hide EngineOk, WriterOk, CommitIdx, AbortIdx, Raw, Finds, ViewOf, EntriesFit, Holds;
    ghost var w, body := s.writer, s.writer.body;
    WriterCommits(s.vfs.View(), s.vfs.data, s.vfs.live, s.vfs.compacting, w.Registered(), body, w.crcRaw, w.crcDirty);
    if |body| == t.size {
      assert body[..off] == body;
      UpdateConcat(0, body, []);
    }
    code := s.Finish();
    if code == 0 {
      assert Ent(s.name, ST_ACTIVE, w.offset, w.size, Crc32(body), body) in s.vfs.View().ents;
    }
  }

  /** What both ways out of a run promise: one terminal state, stored last, with
      a matching error, and visible only once the sink has no writer open. */
  ghost predicate Ended(t: Task, before: seq<Seen>)
    reads t
  {
    && Terminal(t.state) && Matches(t.state, t.err)
    && |before| < |t.trace| <= |before| + 2 && t.trace[..|before|] == before
    && t.trace[|t.trace| - 1] == Seen(t.state, t.err, true)
    && (|t.trace| == |before| + 2 ==> t.trace[|before|].state == Verifying)
  }

  // --- the attempts of a run ---

  /** One connection: its source and start, what came of it, and what was
      decided. */
  datatype Try = Try(range: bool, off: nat, out: AttemptOutcome, d: Decision)

  /** Decisions that leave nothing to do. */
  predicate EndsTask(d: Decision, hasFullUrl: bool) {
    d.Finish? || d.Fail? || (d.Fallback? && !hasFullUrl)
  }

  ghost predicate EndIs(t: Task, state: TaskState, err: TaskErr)
    reads t
  {
    t.state == state && t.err == err
  }

  /** The end that such a decision leads to; fin is the answer of the sink's
      finish. */
  ghost predicate EndedBy(t: Task, d: Decision, fin: nat)
    requires EndsTask(d, t.hasFullUrl)
    reads t
  {
    match d
    case Finish => if fin == 0 then EndIs(t, Done, NoErr) else EndIs(t, Failed, Network)
    case Fail(err) => if err == CanceledErr then EndIs(t, Canceled, CanceledErr) else EndIs(t, Failed, err)
    case Fallback(kind) => EndIs(t, Failed, kind)
    case _ => true
  }

  /** How a run ended: by its last decision, or else because it was canceled. */
  ghost predicate Verdict(t: Task, log: seq<Try>, fin: nat)
    reads t
  {
    if log != [] && EndsTask(log[|log| - 1].d, t.hasFullUrl) then EndedBy(t, log[|log| - 1].d, fin)
    else t.cancel && EndIs(t, Canceled, CanceledErr)
  }

  function Retries(log: seq<Try>): nat {
    if log == [] then 0
    else Retries(log[..|log| - 1]) + (if log[|log| - 1].d.Resume? || log[|log| - 1].d.RestartFromZero? then 1 else 0)
  }

  /** Some attempt began again from 0. */
  ghost predicate Rewound(log: seq<Try>) {
    exists i :: 0 <= i < |log| && (log[i].d.RestartFromZero? || log[i].d.Fallback?)
  }

  /** What the decision on an attempt has to be. */
  predicate Lawful(x: Try, size: nat, retryCount: nat, retries: nat) {
    var more := retries < retryCount;
    if Accepts(x.out, x.range, size) then x.d == Finish
    else if x.out.WasCanceled? then x.d == Fail(CanceledErr)
    else if x.out.SinkError? then x.d == Fail(Network)
    else if x.range then
      match Distrust(x.out, size)
      case Some(why) => x.d == Fallback(why)
      case None => x.d == if more then Resume else Fallback(Dropped(x.out))
    else
      x.d == if more then RestartFromZero else Fail(FullBlame(x.out, size))
  }

  /** Each decision is the lawful one. */
  ghost predicate AllLawful(log: seq<Try>, size: nat, retryCount: nat) {
    forall i :: 0 <= i < |log| ==> Lawful(log[i], size, retryCount, Retries(log[..i]))
  }

  /** None but the last decision ends the task; range requests come first and go
      forward, then full ones, all from 0. */
  ghost predicate InPhases(log: seq<Try>, hasFullUrl: bool) {
    && (forall i :: 0 <= i < |log| - 1 ==> !EndsTask(log[i].d, hasFullUrl))
    && (forall i, j :: 0 <= i < j < |log| && log[j].range ==> log[i].range && log[i].off <= log[j].off)
    && (forall i :: 0 <= i < |log| && !log[i].range ==> log[i].off == 0)
  }

  ghost predicate LogOk(log: seq<Try>, size: nat, retryCount: nat, hasFullUrl: bool) {
    AllLawful(log, size, retryCount) && InPhases(log, hasFullUrl)
  }

  /** The next connection fits in. */
  ghost predicate Open(log: seq<Try>, range: bool, off: nat, hasFullUrl: bool) {
    && (log != [] ==> !EndsTask(log[|log| - 1].d, hasFullUrl))
    && (if range then forall i :: 0 <= i < |log| ==> log[i].range && log[i].off <= off else off == 0)
  }

  lemma LogNone(size: nat, retryCount: nat, range: bool, hasFullUrl: bool)
    ensures LogOk([], size, retryCount, hasFullUrl) && Open([], range, 0, hasFullUrl)
    ensures !Rewound([]) && Retries([]) == 0 && Waits(0) == 0
  {
  }

  lemma LawfulNext(log: seq<Try>, x: Try, size: nat, retryCount: nat)
    requires AllLawful(log, size, retryCount) && Lawful(x, size, retryCount, Retries(log))
    ensures AllLawful(log + [x], size, retryCount)
  {
    hide Lawful, Retries;
    var r := log + [x];
    forall i | 0 <= i < |r|
      ensures Lawful(r[i], size, retryCount, Retries(r[..i]))
    {
      assert r[..i] == log[..i];
      if i == |log| {
        assert log[..i] == log;
      }
    }
  }

  lemma PhasesNext(log: seq<Try>, x: Try, hasFullUrl: bool)
    requires InPhases(log, hasFullUrl) && Open(log, x.range, x.off, hasFullUrl)
    ensures InPhases(log + [x], hasFullUrl)
    ensures x.range && !EndsTask(x.d, hasFullUrl) ==> forall off :: x.off <= off ==>
      Open(log + [x], true, off, hasFullUrl)
    ensures !EndsTask(x.d, hasFullUrl) ==> Open(log + [x], false, 0, hasFullUrl)
  {
    hide EndsTask;
  }

  lemma CountsNext(log: seq<Try>, x: Try)
    ensures Retries(log + [x]) == Retries(log) + (if x.d.Resume? || x.d.RestartFromZero? then 1 else 0)
    ensures Rewound(log + [x]) <==> Rewound(log) || x.d.RestartFromZero? || x.d.Fallback?
  {
    var r := log + [x];
    assert r[..|log|] == log && r[|log|] == x;
    if i :| 0 <= i < |log| && (log[i].d.RestartFromZero? || log[i].d.Fallback?) {
      assert r[i] == log[i];
    }
  }

  /** One decision carried out; over when the task has ended. */
  method Act(t: Task, s: VfsSink, st: RunState, d: Decision, off0: nat, crc0: u32)
    returns (over: bool, off: nat, crc: u32, ghost secs: nat, ghost fin: nat)
    requires Streaming(t, s, off0, crc0)
    requires d.Finish? ==> off0 == t.size && crc0 == t.crc
    requires d.Fail? ==> d.err != NoErr
    requires d.Fallback? ==> d.kind != NoErr && d.kind != CanceledErr
    modifies t, s`writer, s.writer, s.vfs, s.vfs.idx, st`fallbackUsed, st`rangePhase, st`lastErr
    ensures over ==> s.Valid() && s.writer == null && Ended(t, old(t.trace)) && (t.state.Done? ==> Delivered(t, s))
    ensures !over ==>
      Streaming(t, s, off, crc) && t.trace == old(t.trace) && s.writer == old(s.writer) && s.vfs.idx == old(s.vfs.idx)
    // the end that each decision leads to
    ensures EndsTask(d, t.hasFullUrl) ==> over && EndedBy(t, d, fin)
    ensures !EndsTask(d, t.hasFullUrl) && over ==>
      t.cancel && EndIs(t, Canceled, CanceledErr) && (d.Resume? || d.RestartFromZero?)
    ensures d.Finish? && old(Straight(s, off0)) ==> fin == 0
    ensures if d.Fallback? then st.fallbackUsed && !st.rangePhase
            else st.fallbackUsed == old(st.fallbackUsed) && st.rangePhase == old(st.rangePhase)
    ensures secs == if d.Resume? || d.RestartFromZero? then Backoff(st.retries) else 0
    // a resume goes on where the last attempt stopped, everything else from 0
    ensures !over ==> if d.Resume? then off == off0 && crc == crc0 && (old(Straight(s, off0)) ==> Straight(s, off))
                      else off == 0
  {
    hide Streaming, Straight, Delivered, EngineOk, WriterOk, ViewOf, Finds, EntriesFit, Ended, Backoff;
    over, off, crc, secs, fin := false, off0, crc0, 0, 0;
    match d
    case Finish =>
      fin := SettleStream(t, s, off, crc);
      over := true;
    case Resume =>
      var goOn;
      goOn, secs := BackoffWait(t, s, st.retries, off, crc);
      if !goOn {
        AbandonStream(t, s, off, crc, true, CanceledErr);
        over := true;
      }
    case RestartFromZero =>
      var goOn;
      goOn, secs := BackoffWait(t, s, st.retries, off, crc);
      if !goOn {
        AbandonStream(t, s, off, crc, true, CanceledErr);
        over := true;
      } else if off > 0 {
        off, crc := Rewind(t, s, off, crc);
      }
    case Fallback(kind) =>
      st.fallbackUsed := true;
      st.rangePhase := false;
      st.lastErr := kind;
      if !t.hasFullUrl {
        AbandonStream(t, s, off, crc, false, kind);
        over := true;
      } else {
        off, crc := Rewind(t, s, off, crc);
      }
    case Fail(err) =>
      AbandonStream(t, s, off, crc, err == CanceledErr, err);
      over := true;
  }

  /** The accepted stream: verifying, finish, and done or failed. */
  method SettleStream(t: Task, s: VfsSink, ghost off: nat, ghost crc: u32) returns (ghost fin: nat)
    requires Streaming(t, s, off, crc) && off == t.size && crc == t.crc
    modifies t`err, t`state, t`trace, s`writer, s.writer, s.vfs, s.vfs.idx
    ensures s.Valid() && s.writer == null && Ended(t, old(t.trace)) && (t.state.Done? ==> Delivered(t, s))
    ensures if fin == 0 then EndIs(t, Done, NoErr) else EndIs(t, Failed, Network)
    ensures old(Straight(s, off)) ==> fin == 0
  {
    hide Streaming, Straight, Delivered, EngineOk, WriterOk, ViewOf, Finds, EntriesFit;
    t.SetState(Verifying, s);
    var code := FinishStream(t, s, off, crc);
    fin := code;
    if code == 0 {
      t.Complete(s);
    } else {
      code := s.Abort();
      t.End(false, Network, s);
    }
  }

  lemma TransitionLawful(x: Try, size: nat, retryCount: nat, retries: nat, lastErr: TaskErr)
    requires x.d.Finish? <==> Accepts(x.out, x.range, size)
    requires x.out.WasCanceled? ==> x.d == Fail(CanceledErr)
    requires x.out.SinkError? ==> x.d == Fail(Network)
    requires x.range && !x.d.Finish? && !x.out.WasCanceled? && !x.out.SinkError? ==>
      RangeLaw(x.out, size, retryCount, false, retries, x.d, lastErr)
    requires !x.range && !x.d.Finish? && !x.out.WasCanceled? && !x.out.SinkError? ==>
      x.d == if retries < retryCount then RestartFromZero else Fail(FullBlame(x.out, size))
    ensures Lawful(x, size, retryCount, retries)
  {
    hide Distrust, FullBlame, Dropped;
  }

  /** The state of the loop and its log belong together. */
  ghost predicate InStep(st: RunState, log: seq<Try>, size: nat, retryCount: nat, hasFullUrl: bool)
    reads st
  {
    && st.rangePhase != st.fallbackUsed && st.retries == Retries(log) <= retryCount
    && LogOk(log, size, retryCount, hasFullUrl)
  }

  /** A run that has ended. */
  ghost predicate RunOver(t: Task, s: VfsSink, log: seq<Try>, fin: nat, before: seq<Seen>)
    reads t, s, s.vfs, s.vfs.idx, s.writer
  {
    && s.Valid() && s.writer == null && Ended(t, before) && (t.state.Done? ==> Delivered(t, s))
    && Verdict(t, log, fin) && (log != [] && log[|log| - 1].d.Finish? && !Rewound(log) ==> fin == 0)
  }

  /** One connection, what is decided about it, and the decision carried out. */
  method OneTry(t: Task, s: VfsSink, st: RunState, retryCount: nat, off0: nat, crc0: u32, ghost log0: seq<Try>)
    returns (over: bool, off: nat, crc: u32, ghost log: seq<Try>, ghost secs: nat, ghost fin: nat)
    requires Streaming(t, s, off0, crc0) && (Rewound(log0) || Straight(s, off0))
    requires InStep(st, log0, t.size, retryCount, t.hasFullUrl) && Open(log0, st.rangePhase, off0, t.hasFullUrl)
    modifies t, st, s`writer, s.writer, s.vfs, s.vfs.idx
    ensures |log| == |log0| + 1 && log[..|log0|] == log0 && log[|log0|].range == old(st.rangePhase)
    ensures log[|log0|].off == off0
    ensures InStep(st, log, t.size, retryCount, t.hasFullUrl)
    ensures !over ==> Streaming(t, s, off, crc) && t.trace == old(t.trace)
    ensures !over ==> s.writer == old(s.writer) && s.vfs.idx == old(s.vfs.idx)
    ensures !over ==> (Rewound(log) || Straight(s, off)) && Open(log, st.rangePhase, off, t.hasFullUrl)
    ensures over ==> RunOver(t, s, log, fin, old(t.trace))
    ensures secs == Waits(Retries(log)) - Waits(Retries(log0))
    ensures !over ==> Retries(log) > Retries(log0) || (old(st.rangePhase) && !st.rangePhase)
    ensures Retries(log) >= Retries(log0) && (st.rangePhase ==> old(st.rangePhase))
  {
    hide Streaming, Straight, Delivered, Ended, Distrust, FullBlame, Accepts, Dropped, EngineOk, WriterOk, ViewOf,
      Finds, EntriesFit, AllLawful, InPhases, Open, Rewound, Retries, Lawful, RangeLaw, Backoff, EndedBy, EndsTask;
    ghost var range, before := st.rangePhase, st.retries;
    var out;
    out, off, crc := PerformAttempt(t, s, st.rangePhase, off0, crc0);
    var d := st.Transition(out, t.size, retryCount);
    ghost var x := Try(range, off0, out, d);
    AcceptsIs(out, range, t.size);
    TransitionLawful(x, t.size, retryCount, before, st.lastErr);
    LawfulNext(log0, x, t.size, retryCount);
    PhasesNext(log0, x, t.hasFullUrl);
    CountsNext(log0, x);
    EndsOrNot(d, t.hasFullUrl);
    log := log0 + [x];
    over, off, crc, secs, fin := Act(t, s, st, d, off, crc);
  }

  /** The loop of run_task. */
  method RunAttempts(t: Task, s: VfsSink, retryCount: nat)
    returns (ghost waited: nat, ghost log: seq<Try>, ghost fin: nat)
    requires Streaming(t, s, 0, 0) && Straight(s, 0)
    modifies t, s`writer, s.writer, s.vfs, s.vfs.idx
    ensures |log| <= retryCount + 2 && Retries(log) <= retryCount && waited == Waits(Retries(log))
    ensures LogOk(log, t.size, retryCount, t.hasFullUrl) && RunOver(t, s, log, fin, old(t.trace))
  {
    hide Streaming, Straight, Delivered, Ended, Verdict, EngineOk, WriterOk, ViewOf, Finds, EntriesFit, LogOk, Open,
      Rewound, Retries, Waits, EndsTask;
    LogNone(t.size, retryCount, true, t.hasFullUrl);
    var off, crc := 0, 0;
    var st := new RunState();
    var over := false;
    waited, log, fin := 0, [], 0;
    while !over
      invariant InStep(st, log, t.size, retryCount, t.hasFullUrl)
      invariant !over ==> s.writer == old(s.writer) && s.vfs.idx == old(s.vfs.idx) && Streaming(t, s, off, crc)
      invariant !over ==> t.trace == old(t.trace) && (Rewound(log) || Straight(s, off))
      invariant !over ==> Open(log, st.rangePhase, off, t.hasFullUrl)
      invariant over ==> RunOver(t, s, log, fin, old(t.trace))
      invariant |log| <= Retries(log) + (if st.fallbackUsed then 1 else 0) + (if over then 1 else 0)
      invariant waited == Waits(Retries(log))
      decreases retryCount - st.retries + (if st.rangePhase then 1 else 0) + (if over then 0 else 1)
    {
      if t.cancel {
        AbandonStream(t, s, off, crc, true, CanceledErr);
        over := true;
        OpenEnd(log, st.rangePhase, off, t.hasFullUrl);
        CanceledVerdict(t, log, fin);
      } else {
        ghost var secs;
        over, off, crc, log, secs, fin := OneTry(t, s, st, retryCount, off, crc, log);
        waited := waited + secs;
      }
    }
  }

  lemma CanceledVerdict(t: Task, log: seq<Try>, fin: nat)
    requires t.cancel && EndIs(t, Canceled, CanceledErr)
    requires log != [] ==> !EndsTask(log[|log| - 1].d, t.hasFullUrl)
    ensures Verdict(t, log, fin) && (log != [] ==> !log[|log| - 1].d.Finish?)
  {
  }

  lemma EndsOrNot(d: Decision, hasFullUrl: bool)
    ensures d.Finish? || d.Fail? ==> EndsTask(d, hasFullUrl)
    ensures d.Resume? || d.RestartFromZero? ==> !EndsTask(d, hasFullUrl)
  {
  }

  lemma OpenEnd(log: seq<Try>, range: bool, off: nat, hasFullUrl: bool)
    requires Open(log, range, off, hasFullUrl)
    ensures log != [] ==> !EndsTask(log[|log| - 1].d, hasFullUrl)
  {
  }

  lemma AcceptsIs(out: AttemptOutcome, rangePhase: bool, size: nat)
    ensures Accepts(out, rangePhase, size) <==>
      && out.HttpOk? && out.complete && out.crcOk
      && (if rangePhase then out.resp == 206 && out.cr.Some? && out.cr.value.1 == size
          else 200 <= out.resp < 300 && (out.clen < 0 || out.clen == size))
  {
  }

  /** reset: back to the empty prefix; what the sink holds is overwritten later. */
  method Rewind(t: Task, s: VfsSink, off0: nat, crc0: u32) returns (off: nat, crc: u32)
    requires Streaming(t, s, off0, crc0)
    modifies t`bytesDone
    ensures Streaming(t, s, off, crc) && off == 0 && crc == 0
  {
    var code := s.Reset();
    t.bytesDone := 0;
    off, crc := 0, 0;
    assert s.writer.body[..0] == [];
    assert Update(0, []) == 0 by { UpdateNone(); }
  }

  lemma UpdateNone()
    ensures Update(0, []) == 0
  {
    NotNot(0);
  }

  /** abort and terminal. */
  method AbandonStream(t: Task, s: VfsSink, ghost off: nat, ghost crc: u32, canceled: bool, e: TaskErr)
    requires Streaming(t, s, off, crc) && (canceled || (e != NoErr && e != CanceledErr))
    modifies t`err, t`state, t`trace, s`writer, s.writer, s.vfs, s.vfs.idx
    ensures s.Valid() && s.writer == null && Ended(t, old(t.trace)) && !t.state.Done?
    ensures if canceled then EndIs(t, Canceled, CanceledErr) else EndIs(t, Failed, e)
  {
    var code := s.Abort();
    t.End(canceled, e, s);
  }

  lemma StreamingValid(t: Task, s: VfsSink, off: nat, crc: u32)
    requires Streaming(t, s, off, crc)
    ensures s.Valid()
  {
  }

  method PrepareStream(t: Task, s: VfsSink) returns (code: nat)
    requires s.Valid() && s.writer == null && HasRoom(s.vfs, t.size) && t.bytesDone == 0
    modifies s`writer, s.vfs, s.vfs.idx
    ensures code != 0 ==> s.Valid() && s.writer == null
    ensures code == 0 ==> Streaming(t, s, 0, 0) && s.writer != null && fresh(s.writer) && Straight(s, 0)
    ensures code == 0 <==> AllocIdx(old(s.vfs.View()), old(s.vfs.compacting), s.name, t.size).Ok?
    ensures s.vfs.idx == old(s.vfs.idx)
  {
    hide EngineOk, WriterOk, Raw, Finds, ViewOf, EntriesFit, AllocIdx, Align4k;
    code := s.Prepare(t.size);
    if code == 0 {
      assert s.writer.body[..0] == [];
      UpdateNone();
    }
  }

  /** run_task: it ends in one terminal state with a matching error, which nobody
      sees before the writer is closed: that of the last decision, or that of a
      cancel. prep is the answer of the sink's prepare, fin that of its finish;
      waited counts the seconds of back-off. */
  method RunTask(t: Task, s: VfsSink, sinkKnown: bool, retryCount: nat)
    returns (ghost waited: nat, ghost log: seq<Try>, ghost prep: nat, ghost fin: nat)
    requires s.Valid() && s.writer == null && HasRoom(s.vfs, t.size)
    modifies t, s`writer, s.vfs, s.vfs.idx
    ensures s.Valid() && s.writer == null
    ensures |log| <= retryCount + 2 && Retries(log) <= retryCount && waited == Waits(Retries(log))
    ensures LogOk(log, t.size, retryCount, t.hasFullUrl)
    ensures Ended(t, old(t.trace)) && (t.state.Done? ==> Delivered(t, s))
    ensures sinkKnown ==> (prep == 0 <==> AllocIdx(old(s.vfs.View()), old(s.vfs.compacting), s.name, t.size).Ok?)
    ensures !sinkKnown || prep != 0 ==> log == [] && EndIs(t, Failed, Network)
    ensures sinkKnown && prep == 0 && t.size == 0 ==>
      log == [] && (if t.crc == 0 then EndIs(t, Done, NoErr) else EndIs(t, Failed, CrcMismatch))
    ensures sinkKnown && prep == 0 && t.size > 0 ==> Verdict(t, log, fin)
    // a stream that went through without starting over ends as Done
    ensures log != [] && log[|log| - 1].d.Finish? && !Rewound(log) ==> EndIs(t, Done, NoErr)
  {
    hide Delivered, Streaming, Straight, Align4k, EngineOk, WriterOk, ViewOf, Finds, EntriesFit, LogOk, Rewound,
      AllocIdx, Ended;
    waited, log, prep, fin := 0, [], 0, 0;
    LogNone(t.size, retryCount, true, t.hasFullUrl);
    t.err := NoErr;
    t.bytesDone := 0;
    if !sinkKnown {
      FailTask(t, s, Network);
      return;
    }
    var code := PrepareStream(t, s);
    prep := code;
    if code != 0 {
      code := s.Abort();
      FailTask(t, s, Network);
      return;
    }
    if t.size == 0 {
      if t.crc == 0 {
        code := FinishEmpty(t, s);
        if code == 0 {
          return;
        }
      }
      AbandonStream(t, s, 0, 0, false, CrcMismatch);
      return;
    }
    waited, log, fin := RunAttempts(t, s, retryCount);
  }

  /** terminal for a task that has no writer. */
  method FailTask(t: Task, s: VfsSink, e: TaskErr)
    requires s.writer == null && e != NoErr && e != CanceledErr
    modifies t`err, t`state, t`trace
    ensures Ended(t, old(t.trace)) && EndIs(t, Failed, e)
  {
    t.End(false, e, s);
  }

  /** The short cut for an empty file. */
  method FinishEmpty(t: Task, s: VfsSink) returns (code: nat)
    requires Streaming(t, s, 0, 0) && t.size == 0 && t.crc == 0 && Straight(s, 0)
    modifies t`err, t`state, t`trace, s`writer, s.writer, s.vfs, s.vfs.idx
    ensures code == 0 && s.Valid() && s.writer == null && Ended(t, old(t.trace)) && EndIs(t, Done, NoErr)
    ensures Delivered(t, s)
  {
    hide Delivered, Streaming, Straight, EngineOk, WriterOk, ViewOf, Finds, EntriesFit;
    code := FinishStream(t, s, 0, 0);
    if code == 0 {
      t.Complete(s);
    }
  }
}
