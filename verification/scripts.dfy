/**
 Speculative signature checking with bounded replay.

 A Script is adaptive: which signature check it asks for next depends on the
 answers it has had so far, so a Script is a decision tree. The hook may answer
 a check `true` before its equation is known to hold, queue the equation, and
 settle whole batches later. This module gives the ordinary execution of a tree,
 and the facts about partly provisional executions that the hook relies on.
 */
module Scripts {
  newtype Byte = x: int | 0 <= x < 256

  import opened Wrappers

  datatype Verdict = Pass | Fail(error: int)

  // The arguments of one signature check.
  datatype Query = Query(sig: seq<Byte>, pubkey: seq<Byte>, msg: seq<Byte>)

  // Message, normalised signature and compressed key: the 129 bytes that
  // decide a canonical equation.
  type Input = seq<Byte>

  datatype Script =
    | Done(verdict: Verdict)
    | Ask(query: Query, ifTrue: Script, ifFalse: Script)

  const UNKNOWN: Byte := 255

  // What the hook cannot compute itself: ordinary verification, canonicalisation,
  // and the hint the producer's exact arithmetic yields for an equation.
  datatype Crypto = Crypto(
    valid: Query -> bool,
    canonical: Query -> Option<Input>,
    inputValid: Input -> bool,
    exactHint: Input -> Byte)
  {
    ghost predicate Sound() {
      && (forall q: Query {:trigger canonical(q)} :: canonical(q).Some? ==> (inputValid(canonical(q).value) <==> valid(q)))
      && (forall r: Input {:trigger exactHint(r)} :: if inputValid(r) then exactHint(r) < 4 else exactHint(r) == UNKNOWN)
    }

    // The exact advice for a check: unknown unless it is canonical and true.
    function HintOf(q: Query): Byte {
      match canonical(q)
      case None => UNKNOWN
      case Some(r) => exactHint(r)
    }
  }

  // One answered check.
  datatype Step = Step(query: Query, answer: bool)

  type Path = seq<Step>

  predicate Exact(c: Crypto, st: Step) {
    st.answer == c.valid(st.query)
  }

  predicate AllExact(c: Crypto, path: Path) {
    forall k :: 0 <= k < |path| ==> Exact(c, path[k])
  }

  /** The verdict of the ordinary execution, in which every check is verified on the spot. */
  function Exec(c: Crypto, s: Script): Verdict {
    match s
    case Done(v) => v
    case Ask(q, t, f) => Exec(c, if c.valid(q) then t else f)
  }

  /** The checks of the ordinary execution, in order, with their answers. */
  function OrdinaryPath(c: Crypto, s: Script): Path {
    match s
    case Done(_) => []
    case Ask(q, t, f) => [Step(q, c.valid(q))] + OrdinaryPath(c, if c.valid(q) then t else f)
  }

  /** One hint for each of the given checks. */
  function Hints(c: Crypto, path: Path): seq<Byte> {
    seq(|path|, k requires 0 <= k < |path| => c.HintOf(path[k].query))
  }

  function Falses(path: Path): nat {
    if path == [] then 0
    else Falses(path[..|path| - 1]) + if path[|path| - 1].answer then 0 else 1
  }

  /** Where the tree stands after the given answers, if they fit it. */
  function After(s: Script, path: Path): Option<Script> {
    if path == [] then Some(s)
    else match s
      case Done(_) => None
      case Ask(q, t, f) =>
        if q == path[0].query then After(if path[0].answer then t else f, path[1..]) else None
  }

  lemma {:induction false} AfterStep(s: Script, path: Path, answer: bool)
    requires After(s, path).Some? && After(s, path).value.Ask?
    ensures var at := After(s, path).value;
            After(s, path + [Step(at.query, answer)]) == Some(if answer then at.ifTrue else at.ifFalse)
  {
    var next := [Step(After(s, path).value.query, answer)];
    if path == [] {
      assert path + next == next;
    } else {
      assert (path + next)[1..] == path[1..] + next;
      AfterStep(if path[0].answer then s.ifTrue else s.ifFalse, path[1..], answer);
    }
  }

  /** An execution whose answers all turned out right is the ordinary execution. */
  lemma {:induction false} ExactIsOrdinary(c: Crypto, s: Script, path: Path, v: Verdict)
    requires After(s, path) == Some(Done(v))
    requires AllExact(c, path)
    ensures Exec(c, s) == v && OrdinaryPath(c, s) == path
  {
    if path != [] {
      assert Exact(c, path[0]);
      assert AllExact(c, path[1..]) by {
        forall k | 0 <= k < |path| - 1 ensures Exact(c, path[1..][k]) { assert Exact(c, path[k + 1]); }
      }
      ExactIsOrdinary(c, if path[0].answer then s.ifTrue else s.ifFalse, path[1..], v);
      assert path == [path[0]] + path[1..];
    }
  }

  /** The ordinary path is a complete, exact path. */
  lemma {:induction false} OrdinaryIsExact(c: Crypto, s: Script)
    ensures After(s, OrdinaryPath(c, s)) == Some(Done(Exec(c, s)))
    ensures AllExact(c, OrdinaryPath(c, s))
  {
    if s.Ask? {
      var rest := if c.valid(s.query) then s.ifTrue else s.ifFalse;
      OrdinaryIsExact(c, rest);
      assert OrdinaryPath(c, s)[1..] == OrdinaryPath(c, rest);
    }
  }
}
