// The hand-off from the child process: the parent polls a pipe while the child works, sends and exits
// in any interleaving.
module Subprocess {
  import opened Prelude
  import opened Normalise

  // What the pipe holds: nothing, part of a message, or a whole one.
  datatype Pipe = Empty | Partial | Full(payload: Value)

  // The child as the parent can observe it. `writable` says some process still holds the sending end.
  datatype Child = Child(pipe: Pipe, alive: bool, writable: bool)

  // Steps of the child's side. A live child may send piecemeal or be killed at any moment; descriptors
  // close no earlier than the kernel closes them, and death never adds to the pipe.
  ghost predicate Evolve(a: Child, b: Child) {
    && (!a.alive ==> !b.alive && b.pipe == a.pipe)
    && (!a.writable ==> !b.writable && b.pipe == a.pipe)
    && (a.pipe.Full? ==> b.pipe == a.pipe)
    && (a.pipe.Partial? ==> !b.pipe.Empty?)
  }

  // poll() is true at end of file as well.
  predicate Readable(c: Child) {
    !c.pipe.Empty? || !c.writable
  }

  datatype Failure =
    | ChildProcessExit
    | EndOfFile
    | InvalidChildPayload
    | InvalidChildResult
    | Remote(name: string, retryable: bool)

  datatype Answer = Answer(answer: string, evidence: seq<string>, trajectory: Value)

  // Waiting is suspended between two polls, Blocked inside a receive.
  datatype HandOff = Waiting | Blocked | Returned(result: Result<Answer, Failure>)

  function Field(entries: seq<Entry>, name: string): Value {
    var found := Find(entries, Text(name));
    if found.Some? then found.value else Nothing
  }

  predicate AllText(items: seq<Value>) {
    forall i :: 0 <= i < |items| ==> items[i].Str?
  }

  function Texts(items: seq<Value>): seq<string>
    requires AllText(items)
  {
    seq(|items|, i requires 0 <= i < |items| => items[i].s)
  }

  function DecodePayload(payload: Value): Result<Answer, Failure> {
    if !payload.Dict? then Err(InvalidChildPayload)
    else if Field(payload.entries, "ok") == Truth(false) then
      var name, retryable := Field(payload.entries, "exception_type"), Field(payload.entries, "retryable");
      if !name.Str? || !retryable.Truth? then Err(InvalidChildPayload) else Err(Remote(name.s, retryable.b))
    else
      var answer, evidence := Field(payload.entries, "answer"), Field(payload.entries, "evidence");
      if !answer.Str? || !evidence.Sequence? || !AllText(evidence.items) then Err(InvalidChildResult)
      else Ok(Answer(answer.s, Texts(evidence.items), Normal(Field(payload.entries, "trajectory"), false)))
  }

  // The payload a child that succeeded sends.
  function SuccessPayload(answer: string, evidence: seq<string>, trajectory: Value): Value {
    Dict([Entry(Text("ok"), Truth(true)), Entry(Text("answer"), Str(answer)),
          Entry(Text("evidence"), Sequence(seq(|evidence|, i requires 0 <= i < |evidence| => Str(evidence[i])))),
          Entry(Text("trajectory"), Normal(trajectory, false))])
  }

  function FailurePayload(name: string, retryable: bool): Value {
    Dict([Entry(Text("ok"), Truth(false)), Entry(Text("exception_type"), Str(name)),
        Entry(Text("retryable"), Truth(retryable))])
  }

  lemma FindFourth(a: Entry, b: Entry, c: Entry, d: Entry, key: Key)
    ensures Find([a, b, c, d], key) ==
            if a.key == key then Some(a.value) else if b.key == key then Some(b.value)
            else if c.key == key then Some(c.value) else if d.key == key then Some(d.value) else None
  {
    assert [a, b, c, d][1..] == [b, c, d] && [b, c, d][1..] == [c, d] && [c, d][1..] == [d] && [d][1..] == [];
    assert Find([d], key) == if d.key == key then Some(d.value) else None;
    assert Find([c, d], key) == if c.key == key then Some(c.value) else Find([d], key);
    assert Find([b, c, d], key) == if b.key == key then Some(b.value) else Find([c, d], key);
  }

  // Round trip: what the child computed is what the parent decodes, the trajectory normalised once.
  lemma SuccessRoundTrip(answer: string, evidence: seq<string>, trajectory: Value)
    ensures DecodePayload(SuccessPayload(answer, evidence, trajectory))
            == Ok(Answer(answer, evidence, Normal(trajectory, false)))
  {
    var entries := SuccessPayload(answer, evidence, trajectory).entries;
    forall key: Key
      ensures Find(entries, key) ==
              if entries[0].key == key then Some(entries[0].value)
              else if entries[1].key == key then Some(entries[1].value)
              else if entries[2].key == key then Some(entries[2].value)
              else if entries[3].key == key then Some(entries[3].value)
              else None
    {
      FindFourth(entries[0], entries[1], entries[2], entries[3], key);
    }
    assert Field(entries, "ok") == Truth(true) && Field(entries, "answer") == Str(answer);
    assert Texts(Field(entries, "evidence").items) == evidence;
    NormalisingOnceIsEnough(trajectory, false, false);
  }

  lemma FailureRoundTrip(name: string, retryable: bool)
    ensures DecodePayload(FailurePayload(name, retryable)) == Err(Remote(name, retryable))
  {
    var entries := FailurePayload(name, retryable).entries;
    assert entries[1..][0] == entries[1] && entries[1..][1..] == [entries[2]] && entries[1..][1..][0] == entries[2];
    assert Find(entries, Text("exception_type")) == Find(entries[1..], Text("exception_type"))
           == Some(entries[1].value);
    assert Find(entries, Text("retryable")) == Find(entries[1..], Text("retryable"))
           == Find([entries[2]], Text("retryable"));
  }

  // What a failure payload decodes to, whoever sent it: its name and flag, or an error of its own.
  lemma FailurePayloads(payload: Value)
    ensures !payload.Dict? ==> DecodePayload(payload) == Err(InvalidChildPayload)
    ensures payload.Dict? && Find(payload.entries, Text("ok")) == Some(Truth(false)) ==>
              var name, flag := Find(payload.entries, Text("exception_type")), Find(payload.entries, Text("retryable"));
              DecodePayload(payload)
              == if name.Some? && name.value.Str? && flag.Some? && flag.value.Truth?
                 then Err(Remote(name.value.s, flag.value.b)) else Err(InvalidChildPayload)
  {
  }

  // Any other object needs a text and a list of texts.
  lemma ResultPayloads(payload: Value)
    requires payload.Dict? && Find(payload.entries, Text("ok")) != Some(Truth(false))
    ensures var answer, evidence := Find(payload.entries, Text("answer")), Find(payload.entries, Text("evidence"));
            if answer.Some? && answer.value.Str? && evidence.Some? && evidence.value.Sequence?
               && forall i :: 0 <= i < |evidence.value.items| ==> evidence.value.items[i].Str?
            then DecodePayload(payload).Ok? && DecodePayload(payload).value.answer == answer.value.s
            else DecodePayload(payload) == Err(InvalidChildResult)
  {
  }

  // recv() blocks until a whole message or the end of file; `last` is the child when it returned.
  function Receive(last: Child): Result<Answer, Failure> {
    if last.pipe.Full? then DecodePayload(last.pipe.payload) else Err(EndOfFile)
  }

  // The polling loop over the child as it stands at each observation; any number of child steps may
  // fall between two observations. While it waits, the caller's timeout can take over. A receive is a
  // synchronous call in a coroutine: it waits for the first settled observation, and until then it holds
  // up the event loop, with the timeout and the heartbeats on it.
  method ExecuteSubprocess(seen: seq<Child>) returns (outcome: HandOff, used: nat)
    requires forall i, j :: 0 <= i <= j < |seen| ==> Evolve(seen[i], seen[j])
    ensures used <= |seen| && (outcome.Returned? ==> used >= 1)
    ensures outcome.Returned? && seen[used - 1].pipe.Full? ==>
              outcome.result == DecodePayload(seen[used - 1].pipe.payload)
    ensures outcome.Returned? && !seen[used - 1].pipe.Full? ==>
              && outcome.result == Err(if seen[used - 1].writable then ChildProcessExit else EndOfFile)
              && forall i :: 0 <= i < |seen| ==> !seen[i].pipe.Full?
    ensures outcome.Returned? && outcome.result == Err(ChildProcessExit) ==>
              forall i :: used <= i + 1 <= |seen| ==> seen[i].pipe.Empty? && !seen[i].alive
    ensures (forall i :: 0 <= i < |seen| && !seen[i].alive ==> !seen[i].writable) ==>
              !(outcome.Returned? && outcome.result == Err(ChildProcessExit))
    ensures outcome.Blocked? ==> |seen| > 0 && seen[|seen| - 1].pipe.Partial? && seen[|seen| - 1].writable
    ensures outcome.Waiting? ==> forall i :: 0 <= i < |seen| - 1 ==>
              seen[i].pipe.Empty? && seen[i].writable && (i < |seen| - 2 ==> seen[i].alive)
  {
    used := 0;
    while used < |seen|
      invariant used <= |seen|
      invariant forall i :: 0 <= i < used ==> seen[i].alive
      invariant used == 0 || (used >= 2 && !Readable(seen[used - 2]))
    {
      var c := seen[used];
      used := used + 1;
      if Readable(c) {
        outcome, used := ReceiveFrom(seen, used - 1);
        return;
      }
      if used == |seen| {
        break;
      }
      var d := seen[used];
      used := used + 1;
      if !d.alive {
        if used == |seen| {
          break;
        }
        var e := seen[used];
        used := used + 1;
        if Readable(e) {
          outcome, used := ReceiveFrom(seen, used - 1);
          return;
        }
        return Returned(Err(ChildProcessExit)), used;
      }
    }
    outcome := Waiting;
  }

  method ReceiveFrom(seen: seq<Child>, from: nat) returns (outcome: HandOff, used: nat)
    requires from < |seen|
    ensures from <= used <= |seen|
    ensures outcome.Returned? ==> used > from && (seen[used - 1].pipe.Full? || !seen[used - 1].writable)
                                  && outcome.result == Receive(seen[used - 1])
    ensures !outcome.Waiting?
    ensures outcome.Blocked? ==> forall i :: from <= i < |seen| ==> !seen[i].pipe.Full? && seen[i].writable
  {
    used := from;
    while used < |seen|
      invariant from <= used <= |seen|
      invariant forall i :: from <= i < used ==> !seen[i].pipe.Full? && seen[i].writable
    {
      var c := seen[used];
      used := used + 1;
      if c.pipe.Full? || !c.writable {
        return Returned(Receive(c)), used;
      }
    }
    outcome := Blocked;
  }
}
