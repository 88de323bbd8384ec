/**
 The GitHub message queue (`maelstrom-github/src/queue.rs`): one side appends frames to a
 shared blob, with a task beside it that appends keep-alives; the other reads what is new from
 where it left off. Whatever happens between two reads, messages come out as they went in.
 */
module GithubQueues {
  import opened Wrappers
  import opened Integers
  import opened QueueFrames
  import opened Sequences

  datatype ReadResponse = NewData(data: Bytes, etag: nat) | NoData | AuthenticationFailed

  datatype QueueError = Timeout | BadMessage | SliceOutOfRange | ServiceError

  /** How the service answers: as it should, with a refusal after which connecting again works, or not at all. */
  datatype Health = Healthy | Refusing | RefusingForGood | Unreachable {
    /** Whether a read ends in an error rather than in an answer. */
    predicate Fails() { RefusingForGood? || Unreachable? }
  }

  // ----- The blob

  /** An append blob; its etag is the number of writes made to it. */
  class Blob {
    var log: Bytes
    var version: nat
    var broken: bool
    ghost var frames: seq<Frame>

    ghost predicate Valid()
      reads this
    {
      log == EncodeFrames(frames)
    }

    constructor ()
      ensures Valid() && frames == [] && version == 0 && !broken
    {
      log, version, broken, frames := [], 0, false, [];
    }

    /** Appends all of `data` at once, or nothing. */
    method Write(data: Bytes, ghost added: seq<Frame>) returns (ok: bool)
      requires Valid() && data == EncodeFrames(added)
      modifies this
      ensures Valid() && broken == old(broken) && ok == !broken
      ensures frames == if ok then old(frames) + added else old(frames)
      ensures version == if ok then old(version) + 1 else old(version)
    {
      ok := !broken;
      if ok {
        EncodeFramesSum(frames, added);
        log, version, frames := log + data, version + 1, frames + added;
      }
    }

    /** Everything from `index`, unless nothing was written since `etag` or there is nothing there. */
    method Read(index: nat, etag: Option<nat>, health: Health) returns (r: Result<ReadResponse, QueueError>)
      ensures r.Err? <==> health.Unreachable?
      ensures r.Err? ==> r.error == ServiceError
      ensures r == Ok(AuthenticationFailed) <==> health.Refusing? || health.RefusingForGood?
      ensures r == Ok(NoData) <==> health.Healthy? && (etag == Some(version) || index >= |log|)
      ensures r.Ok? && r.value.NewData? ==> index < |log| && r.value.data == log[index..] && r.value.etag == version
    {
      match health {
        case Unreachable => r := Err(ServiceError);
        case Refusing => r := Ok(AuthenticationFailed);
        case RefusingForGood => r := Ok(AuthenticationFailed);
        case Healthy =>
          r := Ok(if etag == Some(version) || index >= |log| then NoData else NewData(log[index..], version));
      }
    }
  }

  // ----- The writing side

  function PayloadFrames(messages: seq<Data>): (frames: seq<Frame>)
    ensures |frames| == |messages|
  {
    seq(|messages|, i requires 0 <= i < |messages| => Payload(messages[i]))
  }

  /** Messages that are all sent. */
  function SomeOf(messages: seq<Data>): seq<Message> {
    if messages == [] then [] else [Some(messages[0])] + SomeOf(messages[1..])
  }

  lemma {:induction false} PayloadMessages(messages: seq<Data>)
    ensures Messages(PayloadFrames(messages)) == SomeOf(messages)
  {
    if messages == [] {
    } else {
      PayloadMessages(messages[1..]);
      assert PayloadFrames(messages)[1..] == PayloadFrames(messages[1..]);
    }
  }

  class GithubWriteQueue {
    const blob: Blob
    var keepAlive: nat
    var tasks: set<nat>
    var nextTask: nat
    ghost var sent: seq<Message>

    /** At most one keep-alive task runs, and the log's messages are those sent. */
    ghost predicate Valid()
      reads this, blob
    {
      && blob.Valid()
      && tasks <= {keepAlive}
      && keepAlive < nextTask
      && sent == Messages(blob.frames)
    }

    constructor ()
      ensures Valid() && fresh(blob) && blob.frames == [] && !blob.broken && tasks == {keepAlive}
    {
      sent := [];
      blob := new Blob();
      keepAlive, tasks, nextTask := 0, {0}, 1;
    }

    method RestartKeepAlive()
      requires Valid()
      modifies this
      ensures Valid() && tasks == {keepAlive} && keepAlive !in old(tasks) && sent == old(sent)
    {
      tasks := tasks - {keepAlive};
      keepAlive, nextTask := nextTask, nextTask + 1;
      tasks := tasks + {keepAlive};
    }

    method WriteMsg(data: Data) returns (ok: bool)
      requires Valid()
      modifies this, blob
      ensures Valid() && blob.broken == old(blob.broken) && ok == !blob.broken
      ensures sent == if ok then old(sent) + [Some(data)] else old(sent)
      ensures blob.frames == if ok then old(blob.frames) + [Payload(data)] else old(blob.frames)
      ensures blob.version == old(blob.version) + (if ok then 1 else 0)
      ensures if ok then tasks == {keepAlive} && keepAlive !in old(tasks) else tasks == old(tasks)
    {
      var toSend := EncodeHeader(PayloadHeader(|data|));
      toSend := toSend + data;
      EncodeOne(Payload(data));
      hide Messages;
      OneMessage(blob.frames, Payload(data));
      ok := blob.Write(toSend, [Payload(data)]);
      if ok {
        sent := sent + [Some(data)];
        RestartKeepAlive();
      }
    }

    /** All the messages in one write. */
    method WriteManyMsgs(messages: seq<Data>) returns (ok: bool)
      requires Valid()
      modifies this, blob
      ensures Valid() && blob.broken == old(blob.broken) && ok == !blob.broken
      ensures sent == if ok then old(sent) + SomeOf(messages) else old(sent)
      ensures blob.frames == if ok then old(blob.frames) + PayloadFrames(messages) else old(blob.frames)
      ensures blob.version == old(blob.version) + (if ok then 1 else 0)
      ensures if ok then tasks == {keepAlive} && keepAlive !in old(tasks) else tasks == old(tasks)
    {
      var toSend: Bytes := [];
      for i := 0 to |messages|
        invariant toSend == EncodeFrames(PayloadFrames(messages[..i]))
        modifies {}
      {
        var data := messages[i];
        EncodeOneMore(messages, i);
        Associative(toSend, EncodeHeader(PayloadHeader(|data|)), data);
        toSend := toSend + EncodeHeader(PayloadHeader(|data|));
        toSend := toSend + data;
      }
      assert messages[..|messages|] == messages;
      MessagesSum(blob.frames, PayloadFrames(messages));
      PayloadMessages(messages);
      ok := blob.Write(toSend, PayloadFrames(messages));
      if ok {
        sent := sent + SomeOf(messages);
        RestartKeepAlive();
      }
    }

    method ShutDown() returns (ok: bool)
      requires Valid()
      modifies this, blob
      ensures Valid() && tasks == {} && blob.broken == old(blob.broken) && ok == !blob.broken
      ensures sent == if ok then old(sent) + [None] else old(sent)
      ensures blob.frames == if ok then old(blob.frames) + [Shutdown] else old(blob.frames)
      ensures blob.version == old(blob.version) + (if ok then 1 else 0)
    {
      tasks := tasks - {keepAlive};
      EncodeOne(Shutdown);
      hide Messages;
      OneMessage(blob.frames, Shutdown);
      ok := blob.Write(EncodeHeader(ShutdownHeader), [Shutdown]);
      if ok {
        sent := sent + [None];
      }
    }

    /** One turn of a keep-alive task; a failing write is ignored. */
    method SendKeepAlive(task: nat)
      requires Valid() && task in tasks
      modifies blob
      ensures Valid() && blob.broken == old(blob.broken) && sent == old(sent)
      ensures blob.frames == if blob.broken then old(blob.frames) else old(blob.frames) + [KeepAlive]
      ensures blob.version >= old(blob.version)
      ensures blob.version == old(blob.version) ==> blob.frames == old(blob.frames)
    {
      EncodeOne(KeepAlive);
      hide Messages;
      OneMessage(blob.frames, KeepAlive);
      var _ := blob.Write(EncodeHeader(KeepAliveHeader), [KeepAlive]);
    }
  }

  lemma EncodeOne(f: Frame)
    ensures EncodeFrames([f]) == EncodeFrame(f)
  {
    assert EncodeFrames([f][1..]) == [];
  }

  lemma {:induction false} OneMessage(frames: seq<Frame>, f: Frame)
    ensures Messages(frames + [f]) == Messages(frames) + MessageOf(f)
  {
    MessagesSum(frames, [f]);
    assert Messages([f][1..]) == [];
    assert MessageOf(f) + [] == MessageOf(f);
  }

  lemma NoMessages()
    ensures Messages([]) == []
  {
  }

  lemma EncodeOneMore(messages: seq<Data>, i: nat)
    requires i < |messages|
    ensures EncodeFrames(PayloadFrames(messages[..i + 1]))
         == EncodeFrames(PayloadFrames(messages[..i])) + EncodeFrame(Payload(messages[i]))
  {
    assert PayloadFrames(messages[..i + 1]) == PayloadFrames(messages[..i]) + [Payload(messages[i])];
    EncodeFramesSum(PayloadFrames(messages[..i]), [Payload(messages[i])]);
    EncodeOne(Payload(messages[i]));
  }

  // ----- Everything else that happens

  datatype WriterStep =
    | WriteOne(data: Data)
    | WriteMany(messages: seq<Data>)
    | Close
    | Tick(task: nat)
    | Break(broken: bool)

  /** What the writer has got through so far, and whether its writes fail. */
  datatype Channel = Channel(sent: seq<Message>, broken: bool)

  /** What one step of the writer gets through: nothing at all if its write fails. */
  function AfterStep(c: Channel, step: WriterStep): Channel {
    match step
    case WriteOne(data) => if c.broken then c else c.(sent := c.sent + [Some(data)])
    case WriteMany(messages) => if c.broken then c else c.(sent := c.sent + SomeOf(messages))
    case Close => if c.broken then c else c.(sent := c.sent + [None])
    case Tick(_) => c
    case Break(broken) => c.(broken := broken)
  }

  function AfterSteps(c: Channel, steps: seq<WriterStep>): Channel {
    if steps == [] then c else AfterStep(AfterSteps(c, steps[..|steps| - 1]), steps[|steps| - 1])
  }

  /** What happens before a read is answered, how it is answered, and whether the reader's patience ran out by then. */
  datatype Turn = Turn(steps: seq<WriterStep>, health: Health, late: bool)

  function AfterTurns(turns: seq<Turn>): Channel {
    if turns == [] then Channel([], false) else AfterSteps(AfterTurns(turns[..|turns| - 1]), turns[|turns| - 1].steps)
  }

  /** How many turns there are up to the last in which the service answers. */
  function LastHealthy(turns: seq<Turn>): (n: nat)
    ensures n <= |turns|
  {
    if turns == [] then 0
    else if turns[|turns| - 1].health.Healthy? then |turns|
    else LastHealthy(turns[..|turns| - 1])
  }

  /** The connection, with the other side at work behind it as the script has it; `turns` are those still to come. */
  class Connection {
    const writer: GithubWriteQueue
    var turns: seq<Turn>
    var health: Health
    ghost const script: seq<Turn>
    ghost var done: nat

    /** What was sent is what the turns that are over send. */
    ghost predicate Valid()
      reads this, writer, writer.blob
    {
      && writer.Valid()
      && done <= |script| && turns == script[done..]
      && Channel(writer.sent, writer.blob.broken) == AfterTurns(script[..done])
    }

    /** There is a reason to give up: the script is over, or the last turn was late or broke the service. */
    ghost predicate Hopeless()
      requires done <= |script|
      reads this
    {
      done == |script| || (done > 0 && (script[done - 1].late || script[done - 1].health.Fails()))
    }

    constructor (turns: seq<Turn>)
      ensures Valid() && fresh(writer) && fresh(writer.blob) && writer.blob.frames == []
      ensures this.turns == turns == script && done == 0
    {
      writer := new GithubWriteQueue();
      this.turns, script, done := turns, turns, 0;
      health := Healthy;
      new;
      NoMessages();
    }

    method GetBlob() returns (r: Result<Blob, QueueError>)
      ensures r == if health.RefusingForGood? then Err(ServiceError) else Ok(writer.blob)
    {
      r := if health.RefusingForGood? then Err(ServiceError) else Ok(writer.blob);
    }

    method Perform(step: WriterStep)
      requires writer.Valid()
      modifies writer, writer.blob
      ensures writer.Valid() && Grows(old(writer.blob.frames), writer.blob.frames)
      ensures Channel(writer.sent, writer.blob.broken) == AfterStep(old(Channel(writer.sent, writer.blob.broken)), step)
      ensures writer.blob.version >= old(writer.blob.version)
      ensures writer.blob.version == old(writer.blob.version) ==> writer.blob.frames == old(writer.blob.frames)
    {
      match step {
        case WriteOne(data) => var _ := writer.WriteMsg(data);
        case WriteMany(messages) => var _ := writer.WriteManyMsgs(messages);
        case Close => var _ := writer.ShutDown();
        case Tick(task) =>
          if task in writer.tasks {
            writer.SendKeepAlive(task);
          }
        case Break(broken) => writer.blob.broken := broken;
      }
    }

    method PerformAll(steps: seq<WriterStep>)
      requires writer.Valid()
      modifies writer, writer.blob
      ensures writer.Valid() && Grows(old(writer.blob.frames), writer.blob.frames)
      ensures Channel(writer.sent, writer.blob.broken) == AfterSteps(old(Channel(writer.sent, writer.blob.broken)),
                                                                     steps)
      ensures writer.blob.version >= old(writer.blob.version)
      ensures writer.blob.version == old(writer.blob.version) ==> writer.blob.frames == old(writer.blob.frames)
    {
      hide GithubWriteQueue.Valid, AfterStep;
      for i := 0 to |steps|
        invariant writer.Valid() && Grows(old(writer.blob.frames), writer.blob.frames)
        invariant writer.blob.version >= old(writer.blob.version)
        invariant writer.blob.version == old(writer.blob.version) ==> writer.blob.frames == old(writer.blob.frames)
        invariant Channel(writer.sent, writer.blob.broken)
               == AfterSteps(old(Channel(writer.sent, writer.blob.broken)), steps[..i])
      {
        assert steps[..i + 1][..i] == steps[..i];
        Perform(steps[i]);
      }
      assert steps[..|steps|] == steps;
    }

    /** Lets the other side act for one turn; once the turns are over nothing more happens. */
    method Pass() returns (late: bool)
      requires Valid()
      modifies this, writer, writer.blob
      ensures Valid() && Grows(old(writer.blob.frames), writer.blob.frames)
      ensures writer.blob.version >= old(writer.blob.version)
      ensures writer.blob.version == old(writer.blob.version) ==> writer.blob.frames == old(writer.blob.frames)
      ensures old(turns) != [] ==> |turns| < |old(turns)| && done == old(done) + 1
                                   && late == script[old(done)].late && health == script[old(done)].health
      ensures old(turns) == [] ==> turns == [] && late && health.Healthy? && done == old(done) == |script|
                                   && writer.blob.frames == old(writer.blob.frames)
    {
      hide Messages, GithubWriteQueue.Valid, AfterSteps;
      if turns == [] {
        health, late := Healthy, true;
      } else {
        var turn := turns[0];
        PerformAll(turn.steps);
        assert script[..done + 1][..done] == script[..done];
        turns, health, late := turns[1..], turn.health, turn.late;
        done := done + 1;
      }
    }
  }

  /** Frames are only ever added at the end. */
  predicate Grows(before: seq<Frame>, after: seq<Frame>) {
    before <= after
  }

  // ----- The reading side

  class GithubReadQueue {
    const conn: Connection
    var blob: Blob
    var index: nat
    var etag: Option<nat>
    var pending: seq<Message>
    ghost var framesRead: nat
    ghost var delivered: seq<Message>
    ghost var caughtUp: nat

    /** The index is between two frames. */
    ghost predicate Placed()
      reads this, conn, conn.writer, conn.writer.blob
    {
      && conn.Valid()
      && blob == conn.writer.blob
      && Reads(blob.frames, blob.version, index, etag, framesRead)
    }

    /**
     The index is between two frames; what was delivered and what is pending are the messages before
     it, and among them all that was sent up to the last turn in which the service answered.
     */
    ghost predicate Valid()
      reads this, conn, conn.writer, conn.writer.blob
    {
      && Placed()
      && delivered + pending == Messages(blob.frames[..framesRead])
      && LastHealthy(conn.script[..conn.done]) <= caughtUp <= conn.done
      && AfterTurns(conn.script[..caughtUp]).sent <= Messages(blob.frames[..framesRead])
    }

    constructor (conn: Connection)
      requires conn.Valid() && conn.done == 0
      ensures Valid() && this.conn == conn && framesRead == 0 && delivered == [] && pending == []
    {
      this.conn := conn;
      blob := conn.writer.blob;
      index, etag, pending := 0, None, [];
      framesRead, delivered, caughtUp := 0, [], 0;
    }

    /** One read. Nothing comes back only if the read was refused or there is nothing new; an error changes nothing. */
    method MaybeReadMsg() returns (r: Result<Option<Bytes>, QueueError>)
      requires Placed()
      modifies `blob, `index, `etag, `framesRead
      ensures Placed() && blob == old(blob) && old(framesRead) <= framesRead <= |blob.frames|
      ensures r.Err? <==> conn.health.Fails()
      ensures r.Err? ==> r.error == ServiceError
      ensures r.Err? || r.value.None? ==> framesRead == old(framesRead) && index == old(index) && etag == old(etag)
      ensures r.Ok? && r.value.Some? ==>
                r.value.value == EncodeFrames(blob.frames[old(framesRead)..framesRead]) && index > old(index)
      ensures conn.health.Healthy? ==> framesRead == |blob.frames|
      ensures !conn.health.Healthy? ==> framesRead == old(framesRead)
    {
      hide Reads, Messages, AfterTurns, LastHealthy;
      ReadFrom(blob.frames, blob.version, index, etag, framesRead);
      var response :- blob.Read(index, etag, conn.health);
      match response {
        case NoData =>
          return Ok(None);
        case AuthenticationFailed =>
          var newBlob :- conn.GetBlob();
          blob := newBlob;
          return Ok(None);
        case NewData(data, newEtag) =>
          etag := Some(newEtag);
          index := index + |data|;
          framesRead := |blob.frames|;
          return Ok(Some(data));
      }
    }

    /** Files the messages of a buffer; says whether there was a keep-alive among the frames. */
    method Absorb(data: Bytes) returns (r: Result<bool, QueueError>)
      modifies `pending
      ensures
        var (frames, end) := ParseFrames(data);
        && pending == old(pending) + Messages(frames)
        && r == match end
                case Clean => Ok(KeepAlive in frames)
                case BadHeader => Err(BadMessage)
                case PayloadCutShort => Err(SliceOutOfRange)
    {
      var rest := data;
      var sawKeepAlive := false;
      ghost var frames: seq<Frame> := [];
      hide DecodeHeader;
      assert frames + ParseFrames(rest).0 == ParseFrames(rest).0 && pending + Messages(frames) == pending;
      while rest != []
        invariant
          var (more, end) := ParseFrames(rest);
          ParseFrames(data) == (frames + more, end)
        invariant pending == old(pending) + Messages(frames)
        invariant sawKeepAlive <==> KeepAlive in frames
        decreases |rest|
      {
        assert frames + [] == frames;
        var decoded := DecodeHeader(rest);
        if decoded.None? {
          return Err(BadMessage);
        }
        var (header, after) := decoded.value;
        HeaderIsShorter(rest);
        match header {
          case KeepAliveHeader =>
            NextFrame(old(pending), frames, KeepAlive, ParseFrames(after).0);
            frames := frames + [KeepAlive];
            sawKeepAlive := true;
            rest := after;
          case PayloadHeader(size) =>
            if |after| < size {
              return Err(SliceOutOfRange);
            }
            var payload := after[..size];
            NextFrame(old(pending), frames, Payload(payload), ParseFrames(after[size..]).0);
            frames := frames + [Payload(payload)];
            rest := after[size..];
            pending := pending + [Some(payload)];
          case ShutdownHeader =>
            NextFrame(old(pending), frames, Shutdown, ParseFrames(after).0);
            frames := frames + [Shutdown];
            rest := after;
            pending := pending + [None];
        }
      }
      assert frames + [] == frames;
      r := Ok(sawKeepAlive);
    }

    /** One read: the other side acts, and what is new is filed. Says whether the reader has run out of patience. */
    method Poll() returns (r: Result<bool, QueueError>)
      requires Valid()
      modifies this, conn, conn.writer, conn.writer.blob
      ensures Valid() && Grows(old(conn.writer.blob.frames), blob.frames) && framesRead >= old(framesRead)
      ensures delivered == old(delivered)
      ensures framesRead <= |blob.frames| && (conn.health.Healthy? ==> framesRead == |blob.frames|)
      ensures r.Err? <==> conn.health.Fails()
      ensures r.Err? ==> r.error == ServiceError && conn.Hopeless() && index == old(index) && pending == old(pending)
      ensures r == Ok(true) ==> conn.Hopeless()
      ensures r.Ok? ==> (r.value <==> (if old(conn.turns) == [] then true else old(conn.turns)[0].late)
                                      && KeepAlive !in blob.frames[old(framesRead)..framesRead])
      ensures r == Ok(false) ==>
                |conn.turns| < |old(conn.turns)|
                || (conn.turns == old(conn.turns) && blob.frames == old(conn.writer.blob.frames)
                    && framesRead > old(framesRead))
    {
      hide Reads, Messages, EncodeFrames, ParseFrames, Grows, AfterTurns, LastHealthy;
      ghost var before, version, from := blob.frames, blob.version, framesRead;
      ghost var doneBefore := conn.done;
      var late := conn.Pass();
      if doneBefore < |conn.script| {
        HealthSteps(conn.script, doneBefore);
      }
      StillReads(before, version, blob.frames, blob.version, index, etag, framesRead);
      var res :- MaybeReadMsg();
      var sawKeepAlive := false;
      if res.Some? {
        ReadFrom(blob.frames, blob.version, index, etag, framesRead);
        NewFramesMean(blob.frames, from, framesRead);
        Associative(delivered, pending, Messages(blob.frames[from..framesRead]));
        var absorbed := Absorb(res.value);
        sawKeepAlive := absorbed.value;
      }
      if conn.health.Healthy? {
        caughtUp := conn.done;
        assert blob.frames[..framesRead] == blob.frames;
      }
      r := Ok(late && !sawKeepAlive);
    }

    /**
     The next message, in order. Reading never goes wrong by itself: it fails with the service, or by
     timeout, and then everything there was has been read unless the last read was refused.
     */
    method ReadMsg() returns (r: Result<Message, QueueError>)
      requires Valid()
      modifies this, conn, conn.writer, conn.writer.blob
      ensures Valid() && Grows(old(conn.writer.blob.frames), blob.frames) && framesRead >= old(framesRead)
      ensures r.Ok? ==> delivered == old(delivered) + [r.value]
      ensures r.Err? ==> delivered == old(delivered) && pending == old(pending) == []
      ensures r.Err? ==> conn.Hopeless() && r.error == if conn.health.Fails() then ServiceError else Timeout
      ensures r.Err? && conn.health.Healthy? ==> framesRead == |blob.frames|
      ensures old(pending) != [] ==> r == Ok(old(pending)[0]) && framesRead == old(framesRead)
    {
      hide Reads, Messages, AfterTurns, LastHealthy;
      if pending != [] {
        var message := PopFront();
        return Ok(message);
      }
      ReadFrom(blob.frames, blob.version, index, etag, framesRead);
      while true
        invariant framesRead <= |blob.frames|
        invariant Valid() && Grows(old(conn.writer.blob.frames), blob.frames) && framesRead >= old(framesRead)
        invariant delivered == old(delivered) && pending == [] && old(pending) == []
        decreases |conn.turns|, |blob.frames| - framesRead
      {
        var giveUp :- Poll();
        if pending != [] {
          var message := PopFront();
          return Ok(message);
        }
        if giveUp {
          return Err(Timeout);
        }
      }
    }

    method PopFront() returns (message: Message)
      requires Valid() && pending != []
      modifies `pending, `delivered
      ensures Valid() && message == old(pending)[0] && delivered == old(delivered) + [message]
    {
      message := pending[0];
      Associative(delivered, [message], pending[1..]);
      assert pending == [message] + pending[1..];
      pending := pending[1..];
      delivered := delivered + [message];
    }
  }

  /** Where a reader is in the log: after `framesRead` frames, and at the end if its etag is current. */
  ghost predicate Reads(frames: seq<Frame>, version: nat, index: nat, etag: Option<nat>, framesRead: nat) {
    && framesRead <= |frames|
    && index == |EncodeFrames(frames[..framesRead])|
    && (etag.Some? ==> etag.value <= version)
    && (etag == Some(version) ==> framesRead == |frames|)
  }

  /** A turn in which the service does not answer is passed over. */
  lemma HealthSteps(script: seq<Turn>, n: nat)
    requires n < |script|
    ensures LastHealthy(script[..n + 1]) == if script[n].health.Healthy? then n + 1 else LastHealthy(script[..n])
  {
    assert script[..n + 1][..n] == script[..n];
  }

  /** Filing one more frame. */
  lemma {:induction false} NextFrame(before: seq<Message>, frames: seq<Frame>, f: Frame, more: seq<Frame>)
    ensures before + Messages(frames + [f]) == (before + Messages(frames)) + MessageOf(f)
    ensures (frames + [f]) + more == frames + ([f] + more)
  {
    hide Messages, MessageOf;
    OneMessage(frames, f);
    Associative(before, Messages(frames), MessageOf(f));
    Associative(frames, [f], more);
  }

  /** What is read between two frames of the log is parsed as the frames between. */
  lemma NewFramesMean(frames: seq<Frame>, from: nat, to: nat)
    requires from <= to <= |frames|
    ensures
      var added := frames[from..to];
      && ParseFrames(EncodeFrames(added)) == (added, Clean)
      && Messages(frames[..to]) == Messages(frames[..from]) + Messages(added)
  {
    var added := frames[from..to];
    assert frames[..from] + added == frames[..to];
    MessagesSum(frames[..from], added);
    FramesReadBack(added, []);
    assert EncodeFrames(added) + [] == EncodeFrames(added) && added + [] == added;
  }

  /** What a read from `index` finds: the frames not yet read; nothing exactly if there are none. */
  lemma {:induction false} ReadFrom(frames: seq<Frame>, version: nat, index: nat, etag: Option<nat>, framesRead: nat)
    requires Reads(frames, version, index, etag, framesRead)
    ensures
      var log := EncodeFrames(frames);
      && framesRead <= |frames| && index <= |log|
      && log[index..] == EncodeFrames(frames[framesRead..|frames|])
      && (etag == Some(version) || index == |log| ==> framesRead == |frames|)
      && Reads(frames, version, |log|, Some(version), |frames|)
  {
    hide EncodeFrames;
    var unread := frames[framesRead..];
    assert frames[..framesRead] + unread == frames && frames[..|frames|] == frames;
    EncodeFramesSum(frames[..framesRead], unread);
    SplitPrefix(EncodeFrames(frames[..framesRead]), EncodeFrames(unread));
    assert frames[framesRead..|frames|] == unread;
    NothingLeft(unread);
  }

  lemma {:induction false} NothingLeft(frames: seq<Frame>)
    ensures |EncodeFrames(frames)| == 0 <==> frames == []
  {
  }

  /** A reader stays where it is in the log while frames are added after it. */
  lemma StillReads(before: seq<Frame>, versionBefore: nat, after: seq<Frame>, version: nat,
                   index: nat, etag: Option<nat>, framesRead: nat)
    requires Reads(before, versionBefore, index, etag, framesRead)
    requires Grows(before, after) && version >= versionBefore && (version == versionBefore ==> after == before)
    ensures Reads(after, version, index, etag, framesRead) && after[..framesRead] == before[..framesRead]
  {
    assert after[..framesRead] == before[..framesRead];
  }

  /** Nothing is lost, doubled or reordered: delivered, pending and unread messages are the messages of the log. */
  lemma {:induction false} NothingLost(frames: seq<Frame>, framesRead: nat, delivered: seq<Message>,
                                       pending: seq<Message>)
    requires framesRead <= |frames| && delivered + pending == Messages(frames[..framesRead])
    ensures delivered + pending + Messages(frames[framesRead..]) == Messages(frames)
    ensures delivered <= Messages(frames)
  {
    assert frames[..framesRead] + frames[framesRead..] == frames;
    MessagesSum(frames[..framesRead], frames[framesRead..]);
    Associative(delivered, pending, Messages(frames[framesRead..]));
  }

  /**
   Up to `count` messages of a conversation, whatever the other side and the service do between the
   reads: they are the first messages sent. If there are fewer, it is because the script ran out, the
   reader lost patience or the service failed, and then everything sent up to the last turn in which
   the service answered has been delivered.
   */
  method Converse(turns: seq<Turn>, count: nat) returns (conn: Connection, messages: seq<Message>)
    ensures conn.Valid() && conn.script == turns
    ensures |messages| <= count && messages <= AfterTurns(turns[..conn.done]).sent
    ensures |messages| < count ==> conn.Hopeless()
    ensures |messages| < count ==> AfterTurns(turns[..LastHealthy(turns[..conn.done])]).sent <= messages
  {
    hide Messages, Reads, Grows, AfterTurns, LastHealthy;
    conn := new Connection(turns);
    var reader := new GithubReadQueue(conn);
    messages := [];
    for i := 0 to count
      invariant fresh(reader) && fresh(conn) && fresh(conn.writer) && fresh(conn.writer.blob)
      invariant reader.conn == conn && conn.script == turns
      invariant reader.Valid() && messages == reader.delivered && |messages| == i
    {
      var message := reader.ReadMsg();
      if message.Err? {
        ReadFrom(reader.blob.frames, reader.blob.version, reader.index, reader.etag, reader.framesRead);
        NothingLost(reader.blob.frames, reader.framesRead, reader.delivered, reader.pending);
        SentEarlier(turns, LastHealthy(turns[..conn.done]), reader.caughtUp);
        assert messages + [] == messages;
        return;
      }
      messages := messages + [message.value];
    }
    ReadFrom(reader.blob.frames, reader.blob.version, reader.index, reader.etag, reader.framesRead);
    NothingLost(reader.blob.frames, reader.framesRead, reader.delivered, reader.pending);
  }

  /** What was sent stays sent. */
  lemma {:induction false} SentEarlier(turns: seq<Turn>, i: nat, j: nat)
    requires i <= j <= |turns|
    ensures AfterTurns(turns[..i]).sent <= AfterTurns(turns[..j]).sent
    decreases j
  {
    if i == j {
    } else {
      assert turns[..j][..j - 1] == turns[..j - 1];
      SentEarlier(turns, i, j - 1);
      StepsOnlyAdd(AfterTurns(turns[..j - 1]), turns[j - 1].steps);
    }
  }

  lemma {:induction false} StepsOnlyAdd(c: Channel, steps: seq<WriterStep>)
    ensures c.sent <= AfterSteps(c, steps).sent
  {
    if steps == [] {
    } else {
      StepsOnlyAdd(c, steps[..|steps| - 1]);
    }
  }
}
