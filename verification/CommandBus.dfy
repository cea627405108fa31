/** Running a command in place or through its partition: what travels, and why the caller cannot
    tell the difference. */
module CommandBus {

  import opened Wrappers
  import Routing

  /** A Go error: its identity, its message, and the identities of itself and all it wraps. */
  datatype Error = Error(self: int, message: string, wraps: set<int>)

  /** errors.Is. */
  predicate Is(e: Error, target: Error) {
    target.self in e.wraps
  }

  datatype Coded = Coded(code: string, err: Error)

  // ----- the table of registered errors -----

  predicate HasCode(table: seq<Coded>, code: string) {
    exists i :: 0 <= i < |table| && table[i].code == code
  }

  /** Registering: the first error of a code stays. */
  function Registered(table: seq<Coded>, code: string, err: Error): seq<Coded> {
    if HasCode(table, code) then table else table + [Coded(code, err)]
  }

  function RegisterAll(history: seq<Coded>): seq<Coded> {
    if history == [] then []
    else Registered(RegisterAll(history[..|history| - 1]), history[|history| - 1].code, history[|history| - 1].err)
  }

  predicate DistinctCodes(table: seq<Coded>) {
    forall i, j :: 0 <= i < j < |table| ==> table[i].code != table[j].code
  }

  /** Whatever the history, every registered code stands once, for the error it was first given. */
  lemma {:induction false} FirstRegistrationWins(history: seq<Coded>)
    ensures DistinctCodes(RegisterAll(history))
    ensures forall code :: SentinelOf(RegisterAll(history), code) == SentinelOf(history, code)
  {
    if history != [] {
      var last, before := history[|history| - 1], history[..|history| - 1];
      assert history == before + [last];
      FirstRegistrationWins(before);
      forall code ensures SentinelOf(RegisterAll(history), code) == SentinelOf(history, code) {
        SentinelOfAppend(before, last, code);
        SentinelOfAppend(RegisterAll(before), last, code);
      }
    }
  }

  lemma {:induction false} SentinelOfAppend(table: seq<Coded>, c: Coded, code: string)
    ensures SentinelOf(table + [c], code) ==
              if SentinelOf(table, code).Some? then SentinelOf(table, code) else if c.code == code != "" then Some(c.err) else None
    ensures SentinelOf(table, code).Some? <==> code != "" && HasCode(table, code)
    decreases |table|
  {
    if table == [] {
      assert [c][1..] == [];
      assert table + [c] == [c];
    } else {
      assert (table + [c])[1..] == table[1..] + [c];
      SentinelOfAppend(table[1..], c, code);
      assert forall i :: 0 < i < |table| ==> table[i] == table[1..][i - 1];
    }
  }

  /** The place of the first registered error that e is; the table's length if it is none. */
  function FirstMatch(table: seq<Coded>, e: Error): (k: nat)
    ensures k <= |table| && (k < |table| ==> Is(e, table[k].err))
    ensures forall i :: 0 <= i < k ==> !Is(e, table[i].err)
  {
    if table == [] || Is(e, table[0].err) then 0 else 1 + FirstMatch(table[1..], e)
  }

  function CodeOf(table: seq<Coded>, e: Error): string {
    if FirstMatch(table, e) < |table| then table[FirstMatch(table, e)].code else ""
  }

  function SentinelOf(table: seq<Coded>, code: string): (r: Option<Error>)
    ensures r.Some? ==> code != "" && Coded(code, r.value) in table
    ensures r.None? && code != "" ==> !HasCode(table, code)
  {
    if code == "" || table == [] then None
    else if table[0].code == code then Some(table[0].err)
    else
      var r := SentinelOf(table[1..], code);
      assert r.None? ==> forall i :: 0 < i < |table| ==> table[i] == table[1..][i - 1];
      r
  }

  // ----- one command -----

  /** What a handler gives back: an error, or a value, which may be nil. */
  datatype Outcome<+V> = Fails(err: Error) | Gives(value: Option<V>)

  /** What the caller of Do sees: an error, or its result decoded (None: left as it was). */
  datatype Seen<+R> = Failed(err: Error) | Decoded(result: Option<R>)

  datatype Reply = Reply(id: Routing.Uuid, result: string, error: string, errorCode: string)

  /** JSON, taken as given: the text of a value, if it has one, and reading a text into the caller's
      result. Encoding never gives the empty text. */
  datatype Json<!V, !R> = Json(encode: V -> Option<string>, encodeError: V -> Error, decode: string -> Option<R>, decodeError: string -> Error)

  ghost predicate Proper<V(!new), R>(j: Json<V, R>) {
    && (forall v :: j.encode(v) != Some(""))
    && (forall v :: j.encodeError(v).message != "")
  }

  function DecodeInto<V, R>(j: Json<V, R>, text: string): Seen<R> {
    var r := j.decode(text);
    if r.None? then Failed(j.decodeError(text)) else Decoded(r)
  }

  /** A new error value that says more about the one it wraps. */
  function Wrapping(self: int, prefix: string, e: Error): Error {
    Error(self, prefix + e.message, {self} + e.wraps)
  }

  /** The command run in the caller's own goroutine; `wanted` is false when it ignores the result. */
  function RunLocal<V, R>(j: Json<V, R>, out: Outcome<V>, wanted: bool, tag: int): Seen<R> {
    if out.Fails? then Failed(out.err)
    else if !wanted || out.value.None? then Decoded(None)
    else if j.encode(out.value.value).None? then Failed(Wrapping(tag, "encode result: ", j.encodeError(out.value.value)))
    else DecodeInto(j, j.encode(out.value.value).value)
  }

  /** The reply the partition's owner sends. */
  function Execute<V, R>(j: Json<V, R>, table: seq<Coded>, id: Routing.Uuid, out: Outcome<V>): Reply {
    if out.Fails? then Reply(id, "", out.err.message, CodeOf(table, out.err))
    else if out.value.None? then Reply(id, "", "", "")
    else if j.encode(out.value.value).None? then
      var e := j.encodeError(out.value.value);
      Reply(id, "", e.message, CodeOf(table, e))
    else Reply(id, j.encode(out.value.value).value, "", "")
  }

  /** A remote error is a new error value, itself and what its sentinel is. */
  function Remote(self: int, message: string, sentinel: Option<Error>): Error {
    Error(self, message, {self} + if sentinel.None? then {} else sentinel.value.wraps)
  }

  function DecodeReply<V, R>(j: Json<V, R>, table: seq<Coded>, reply: Reply, wanted: bool, tag: int): Seen<R> {
    if reply.error != "" then Failed(Remote(tag, reply.error, SentinelOf(table, reply.errorCode)))
    else if !wanted || reply.result == "" then Decoded(None)
    else DecodeInto(j, reply.result)
  }

  /** The error an execution ends in, if it does: the handler's, or that of encoding its result. */
  function Failure<V, R>(j: Json<V, R>, out: Outcome<V>): Option<Error> {
    if out.Fails? then Some(out.err)
    else if out.value.Some? && j.encode(out.value.value).None? then Some(j.encodeError(out.value.value))
    else None
  }

  /** An outcome the owner replies: anything but a failure worth retrying. */
  predicate Final<V, R>(j: Json<V, R>, transient: Error -> bool, out: Outcome<V>) {
    Failure(j, out).Some? ==> !transient(Failure(j, out).value)
  }

  /** What the caller of Do sees of a command run through its partition, given how its attempts turn
      out one after the other: the reply to the first that is final, and nothing while there is none. */
  function RunRemote<V, R>(j: Json<V, R>, transient: Error -> bool, table: seq<Coded>, id: Routing.Uuid, attempts: seq<Outcome<V>>, wanted: bool, tag: int): Option<Seen<R>> {
    if attempts == [] then None
    else if Final(j, transient, attempts[0]) then Some(DecodeReply(j, table, Execute(j, table, id, attempts[0]), wanted, tag))
    else RunRemote(j, transient, table, id, attempts[1..], wanted, tag)
  }

  /** The same for one attempt. */
  function RunAfar<V, R>(j: Json<V, R>, table: seq<Coded>, id: Routing.Uuid, out: Outcome<V>, wanted: bool, tag: int): Seen<R> {
    DecodeReply(j, table, Execute(j, table, id, out), wanted, tag)
  }

  /** Sentinels are errors that are themselves, and being an error is transitive. */
  ghost predicate Sentinels(table: seq<Coded>, e: Error) {
    && (forall i :: 0 <= i < |table| ==> Is(table[i].err, table[i].err))
    && (forall i :: 0 <= i < |table| && Is(e, table[i].err) ==> table[i].err.wraps <= e.wraps)
  }

  lemma {:induction false} SentinelComesBack(table: seq<Coded>, k: nat)
    requires DistinctCodes(table) && k < |table| && table[k].code != ""
    ensures SentinelOf(table, table[k].code) == Some(table[k].err)
    decreases k
  {
    if k > 0 {
      assert table[0].code != table[k].code;
      assert table[1..][k - 1] == table[k];
      SentinelComesBack(table[1..], k - 1);
    }
  }

  /** An error come back from afar: the same message; the first registered error it is, it still is,
      unless that has no code to travel as; and it has not become anything it was not. */
  ghost predicate SameError(table: seq<Coded>, e: Error, r: Error, tag: int) {
    && r.message == e.message
    && (FirstMatch(table, e) < |table| ==> (table[FirstMatch(table, e)].code != "" <==> Is(r, table[FirstMatch(table, e)].err)))
    && (forall t :: t in r.wraps ==> t in e.wraps || t == tag)
  }

  /** Two ways of seeing one command. */
  ghost predicate Alike<R>(table: seq<Coded>, here: Seen<R>, there: Seen<R>, tag: int) {
    there == here || (here.Failed? && there.Failed? && SameError(table, here.err, there.err, tag))
  }

  /** A command that succeeds with a result that has a text, or with none: the same result, decoded
      the same way. */
  lemma SameResult<V(!new), R>(j: Json<V, R>, table: seq<Coded>, id: Routing.Uuid, out: Outcome<V>, wanted: bool, tag: int)
    requires Proper(j) && out.Gives? && (out.value.Some? ==> j.encode(out.value.value).Some?)
    ensures RunAfar(j, table, id, out, wanted, tag) == RunLocal(j, out, wanted, tag)
  {
    if out.value.Some? {
      assert j.encode(out.value.value) != Some("");
    }
  }

  /** A command that fails: the same message and the same sentinel, exactly when there is a message. */
  lemma SameFailure<V, R>(j: Json<V, R>, history: seq<Coded>, id: Routing.Uuid, e: Error, wanted: bool, tag: int)
    requires var table := RegisterAll(history); Sentinels(table, e) && forall i :: 0 <= i < |table| ==> table[i].err.self != tag
    ensures var table := RegisterAll(history);
            Alike(table, RunLocal(j, Fails(e), wanted, tag), RunAfar(j, table, id, Fails(e), wanted, tag), tag) <==> e.message != ""
  {
    var table := RegisterAll(history);
    FirstRegistrationWins(history);
    var there := RunAfar(j, table, id, Fails(e), wanted, tag);
    var k := FirstMatch(table, e);
    if e.message != "" && k < |table| && table[k].code != "" {
      SentinelComesBack(table, k);
      assert there == Failed(Remote(tag, e.message, Some(table[k].err)));
    }
  }

  /** A result without a text never looks the same: here it is dropped, or fails with a prefix before the
      encoder's message; from afar it fails with that message. */
  lemma UnencodableDiffers<V(!new), R>(j: Json<V, R>, table: seq<Coded>, id: Routing.Uuid, v: V, wanted: bool, tag: int)
    requires Proper(j) && j.encode(v).None?
    ensures !Alike(table, RunLocal(j, Gives(Some(v)), wanted, tag), RunAfar(j, table, id, Gives(Some(v)), wanted, tag), tag)
  {
    var e := j.encodeError(v);
    assert e.message != "";
    assert |"encode result: " + e.message| != |e.message|;
  }

  /** For a command whose first attempt is final, the caller cannot tell where it ran, except in exactly
      two cases: it fails without a message, or its result cannot be encoded. */
  lemma ModesAgree<V(!new), R>(j: Json<V, R>, transient: Error -> bool, history: seq<Coded>, id: Routing.Uuid, attempts: seq<Outcome<V>>, wanted: bool, tag: int)
    requires Proper(j) && attempts != [] && Final(j, transient, attempts[0])
    requires var table := RegisterAll(history); forall i :: 0 <= i < |table| ==> table[i].err.self != tag
    requires attempts[0].Fails? ==> Sentinels(RegisterAll(history), attempts[0].err)
    ensures var table := RegisterAll(history); var there := RunRemote(j, transient, table, id, attempts, wanted, tag);
            there.Some? && (
              Alike(table, RunLocal(j, attempts[0], wanted, tag), there.value, tag) <==>
                match attempts[0]
                case Fails(e) => e.message != ""
                case Gives(v) => v.None? || j.encode(v.value).Some?)
  {
    match attempts[0]
    case Fails(e) => SameFailure(j, history, id, e, wanted, tag);
    case Gives(v) =>
      if v.Some? && j.encode(v.value).None? {
        UnencodableDiffers(j, RegisterAll(history), id, v.value, wanted, tag);
      } else {
        SameResult(j, RegisterAll(history), id, attempts[0], wanted, tag);
      }
  }

  /** A first attempt that fails transiently is returned here and retried there, where the caller sees the
      first final attempt after it, or nothing at all if there is none. */
  lemma {:induction false} TransientIsRetried<V, R>(j: Json<V, R>, transient: Error -> bool, table: seq<Coded>, id: Routing.Uuid, attempts: seq<Outcome<V>>, wanted: bool, tag: int, n: nat)
    requires n <= |attempts| && forall i :: 0 <= i < n ==> !Final(j, transient, attempts[i])
    requires n < |attempts| ==> Final(j, transient, attempts[n])
    ensures RunRemote(j, transient, table, id, attempts, wanted, tag) ==
              if n == |attempts| then None else Some(RunAfar(j, table, id, attempts[n], wanted, tag))
    ensures n > 0 && wanted ==> RunLocal(j, attempts[0], wanted, tag).Failed?
    decreases n
  {
    if n > 0 {
      TransientIsRetried(j, transient, table, id, attempts[1..], wanted, tag, n - 1);
    }
  }

  /** A failure without a message is lost on the way back. */
  lemma SilentFailureIsLost<V, R>(j: Json<V, R>, id: Routing.Uuid, tag: int)
    ensures var e := Error(7, "", {7});
            && RunLocal(j, Fails(e), true, tag) == Failed(e)
            && RunAfar(j, [], id, Fails(e), true, tag) == Decoded(None)
  {
  }

  // ----- the registry -----

  /** The package's table of errors, filled at boot. */
  class Bus {
    var errCodes: seq<Coded>
    ghost var history: seq<Coded>

    ghost predicate Valid()
      reads this
    {
      errCodes == RegisterAll(history)
    }

    constructor ()
      ensures Valid() && history == []
    {
      errCodes, history := [], [];
    }

    method RegisterError(code: string, err: Error)
      requires Valid()
      modifies this
      ensures Valid() && history == old(history) + [Coded(code, err)]
    {
      history := history + [Coded(code, err)];
      assert history[..|history| - 1] == old(history);
      for i := 0 to |errCodes|
        invariant forall k :: 0 <= k < i ==> errCodes[k].code != code
      {
        if errCodes[i].code == code {
          return;
        }
      }
      errCodes := errCodes + [Coded(code, err)];
    }

    /** The code an error travels as. */
    method FindCode(err: Error) returns (code: string)
      ensures code == CodeOf(errCodes, err)
    {
      for i := 0 to |errCodes|
        invariant FirstMatch(errCodes, err) == i + FirstMatch(errCodes[i..], err)
      {
        if Is(err, errCodes[i].err) {
          return errCodes[i].code;
        }
        assert errCodes[i..][1..] == errCodes[i + 1..];
      }
      return "";
    }

    /** The error a code stands for. */
    method FindSentinel(code: string) returns (err: Option<Error>)
      ensures err == SentinelOf(errCodes, code)
    {
      if code == "" {
        return None;
      }
      for i := 0 to |errCodes|
        invariant SentinelOf(errCodes, code) == SentinelOf(errCodes[i..], code)
      {
        if errCodes[i].code == code {
          return Some(errCodes[i].err);
        }
        assert errCodes[i..][1..] == errCodes[i + 1..];
      }
      return None;
    }
  }
}
