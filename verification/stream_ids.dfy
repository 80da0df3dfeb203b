/** The requester-side stream identifier generator. It keeps the last
    committed identifier, proposes the next one of the same parity to a
    callback, and commits the proposal only when the callback accepts it.
    A refused proposal is not skipped: the next call proposes it again. */
module StreamIds {

  datatype StreamIdGenerator = StreamIdGenerator(currentId: int)

  /** The identifier the next call to Next will propose. */
  function Candidate(g: StreamIdGenerator): int {
    g.currentId + 2
  }

  /** One call of `next`: `accept` stands for the callback, which is asked
      about the candidate exactly once. */
  function Next(g: StreamIdGenerator, accept: int -> bool): (r: StreamIdGenerator)
    ensures r.currentId % 2 == g.currentId % 2
    ensures r.currentId == g.currentId || r.currentId == g.currentId + 2
    ensures r.currentId == g.currentId + 2 <==> accept(g.currentId + 2)
    ensures !accept(g.currentId + 2) ==> Candidate(r) == Candidate(g)
  {
    var nextId := Candidate(g);
    if !accept(nextId) then g else StreamIdGenerator(nextId)
  }

  /** The callback that gives a fixed answer, whatever it is asked. */
  function Answer(b: bool): int -> bool {
    _ => b
  }

  /** Number of `true` answers in a sequence of callback answers. */
  function Accepts(answers: seq<bool>): nat {
    if answers == [] then 0
    else (if answers[0] then 1 else 0) + Accepts(answers[1..])
  }

  /** The candidates offered by successive calls to Next whose callbacks give
      the answers in order. */
  function Proposals(g: StreamIdGenerator, answers: seq<bool>): seq<int>
    decreases |answers|
  {
    if answers == [] then []
    else [Candidate(g)] + Proposals(Next(g, Answer(answers[0])), answers[1..])
  }

  /** The identifiers committed by those calls, in order. */
  function Committed(g: StreamIdGenerator, answers: seq<bool>): seq<int>
    decreases |answers|
  {
    if answers == [] then []
    else
      var rest := Committed(Next(g, Answer(answers[0])), answers[1..]);
      if answers[0] then [Candidate(g)] + rest else rest
  }

  /** The generator after those calls. */
  function After(g: StreamIdGenerator, answers: seq<bool>): StreamIdGenerator
    decreases |answers|
  {
    if answers == [] then g
    else After(Next(g, Answer(answers[0])), answers[1..])
  }

  /** The i-th proposal is the seed plus two for every acceptance before it,
      plus two: acceptances advance the sequence, refusals repeat it. */
  lemma {:induction false} ProposalsCount(g: StreamIdGenerator, answers: seq<bool>)
    ensures |Proposals(g, answers)| == |answers|
    ensures forall i :: 0 <= i < |answers| ==>
      Proposals(g, answers)[i] == g.currentId + 2 * (Accepts(answers[..i]) + 1)
    ensures After(g, answers).currentId == g.currentId + 2 * Accepts(answers)
    decreases |answers|
  {
    if answers != [] {
      var g' := Next(g, Answer(answers[0]));
      var tail := answers[1..];
      ProposalsCount(g', tail);
      assert g'.currentId == g.currentId + (if answers[0] then 2 else 0);
      forall i | 0 <= i < |answers|
        ensures Proposals(g, answers)[i] == g.currentId + 2 * (Accepts(answers[..i]) + 1)
      {
        if i > 0 {
          assert answers[..i][1..] == tail[..i - 1];
          assert answers[..i][0] == answers[0];
        }
      }
    }
  }

  /** Successive acceptances commit seed + 2, seed + 4, seed + 6, ... */
  lemma {:induction false} CommittedSequence(g: StreamIdGenerator, answers: seq<bool>)
    ensures |Committed(g, answers)| == Accepts(answers)
    ensures forall i :: 0 <= i < |Committed(g, answers)| ==>
      Committed(g, answers)[i] == g.currentId + 2 * (i + 1)
    decreases |answers|
  {
    if answers != [] {
      var g' := Next(g, Answer(answers[0]));
      CommittedSequence(g', answers[1..]);
    }
  }

  /** Committed identifiers are never handed out twice, and all share the
      parity of the seed. */
  lemma CommittedDistinct(g: StreamIdGenerator, answers: seq<bool>)
    ensures forall i, j :: 0 <= i < j < |Committed(g, answers)| ==>
      Committed(g, answers)[i] < Committed(g, answers)[j]
    ensures forall i :: 0 <= i < |Committed(g, answers)| ==>
      Committed(g, answers)[i] % 2 == g.currentId % 2
  {
    CommittedSequence(g, answers);
  }
}
