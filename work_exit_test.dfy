/** `calculateResult` of src/lib/workExitTest.ts: the answers' weights are
    summed per personality type and the type with the highest total wins,
    ties going to the type listed later. */
module WorkExitTest {
  datatype ResultType = Optimizer | Harmonizer | Planner | Innovator

  /** Position in `Object.keys(scores)`, i.e. the order the record lists them. */
  function KeyIndex(t: ResultType): nat {
    match t
    case Optimizer => 0
    case Harmonizer => 1
    case Planner => 2
    case Innovator => 3
  }

  datatype Answer = Answer(kind: ResultType, weight: int)

  /** The `scores` record. */
  datatype Scores = Scores(optimizer: int, harmonizer: int, planner: int, innovator: int) {
    function Get(t: ResultType): int {
      match t
      case Optimizer => optimizer
      case Harmonizer => harmonizer
      case Planner => planner
      case Innovator => innovator
    }

    function Add(t: ResultType, w: int): (s: Scores)
      ensures s.Get(t) == Get(t) + w
      ensures forall u :: u != t ==> s.Get(u) == Get(u)
    {
      match t
      case Optimizer => this.(optimizer := optimizer + w)
      case Harmonizer => this.(harmonizer := harmonizer + w)
      case Planner => this.(planner := planner + w)
      case Innovator => this.(innovator := innovator + w)
    }
  }

  /** The total weight of the answers of type `t`. */
  function Score(answers: seq<Answer>, t: ResultType): int {
    if answers == [] then 0
    else Score(answers[..|answers| - 1], t) + (if answers[|answers| - 1].kind == t then answers[|answers| - 1].weight else 0)
  }

  /** The accumulation loop (`answers.forEach(...)`). */
  method Tally(answers: seq<Answer>) returns (scores: Scores)
    ensures forall t :: scores.Get(t) == Score(answers, t)
  {
    scores := Scores(0, 0, 0, 0);
    for i := 0 to |answers|
      invariant forall t :: scores.Get(t) == Score(answers[..i], t)
    {
      scores := scores.Add(answers[i].kind, answers[i].weight);
      assert answers[..i + 1][..i] == answers[..i];
    }
    assert answers[..|answers|] == answers;
  }

  /** `(a, b) => scores[a] > scores[b] ? a : b`. */
  function Better(s: Scores, a: ResultType, b: ResultType): ResultType {
    if s.Get(a) > s.Get(b) then a else b
  }

  /** The `reduce` over the four keys in order. */
  function Pick(s: Scores): ResultType {
    Better(s, Better(s, Better(s, Optimizer, Harmonizer), Planner), Innovator)
  }

  /** The winner has the highest score, and every type listed after it
      scores strictly less: it is the last of the types with the maximum. */
  lemma PickIsLastMaximum(s: Scores)
    ensures forall t :: s.Get(t) <= s.Get(Pick(s))
    ensures forall t :: KeyIndex(t) > KeyIndex(Pick(s)) ==> s.Get(t) < s.Get(Pick(s))
  {
  }

  /** Any type with the maximum score that is listed at least as late as
      every other maximum is the winner. */
  lemma PickUnique(s: Scores, r: ResultType)
    requires forall t :: s.Get(t) <= s.Get(r)
    requires forall t :: KeyIndex(t) > KeyIndex(r) ==> s.Get(t) < s.Get(r)
    ensures Pick(s) == r
  {
    PickIsLastMaximum(s);
  }

  /** The record of totals the answers produce. */
  function ScoresOf(answers: seq<Answer>): Scores {
    Scores(Score(answers, Optimizer), Score(answers, Harmonizer), Score(answers, Planner), Score(answers, Innovator))
  }

  /** `calculateResult`. */
  method CalculateResult(answers: seq<Answer>) returns (result: ResultType)
    ensures result == Pick(ScoresOf(answers))
    ensures forall t :: Score(answers, t) <= Score(answers, result)
    ensures forall t :: KeyIndex(t) > KeyIndex(result) ==> Score(answers, t) < Score(answers, result)
  {
    var scores := Tally(answers);
    assert scores == ScoresOf(answers);
    result := Pick(scores);
    PickIsLastMaximum(scores);
  }

  /** With no answers all scores tie at zero and the last type wins. */
  lemma NoAnswersGiveInnovator()
    ensures Pick(Scores(0, 0, 0, 0)) == Innovator
    ensures forall t :: Score([], t) == 0
  {
  }

  lemma {:induction false} ScoreAppend(a: seq<Answer>, b: seq<Answer>, t: ResultType)
    ensures Score(a + b, t) == Score(a, t) + Score(b, t)
  {
    if b != [] {
      ScoreAppend(a, b[..|b| - 1], t);
      assert (a + b)[..|a + b| - 1] == a + b[..|b| - 1];
    } else {
      assert a + b == a;
    }
  }

  /** The scores depend only on which answers were given, not on their
      order, so the result is invariant under permutation of the answers. */
  lemma {:induction false} ScorePermutation(a: seq<Answer>, b: seq<Answer>, t: ResultType)
    requires multiset(a) == multiset(b)
    ensures Score(a, t) == Score(b, t)
    decreases |a|
  {
    if a != [] {
      var x := a[|a| - 1];
      var init := a[..|a| - 1];
      assert a == init + [x];
      assert x in multiset(b);
      var j :| 0 <= j < |b| && b[j] == x;
      var rest := b[..j] + b[j + 1..];
      RemoveAtMultiset(b, j);
      assert multiset(init) == multiset(a) - multiset{x};
      ScorePermutation(init, rest, t);
      ScoreRemoveAt(b, j, t);
      ScoreAppend(init, [x], t);
    } else {
      assert b == [];
    }
  }

  lemma RemoveAtMultiset(b: seq<Answer>, j: nat)
    requires j < |b|
    ensures multiset(b[..j] + b[j + 1..]) == multiset(b) - multiset{b[j]}
  {
    assert b == b[..j] + [b[j]] + b[j + 1..];
  }

  /** The score of a sequence is that of the sequence without element `j`
      plus that element's share. */
  lemma ScoreRemoveAt(b: seq<Answer>, j: nat, t: ResultType)
    requires j < |b|
    ensures Score(b, t) == Score(b[..j] + b[j + 1..], t) + Score([b[j]], t)
  {
    var x := b[j];
    assert b == (b[..j] + [x]) + b[j + 1..];
    ScoreAppend(b[..j] + [x], b[j + 1..], t);
    ScoreAppend(b[..j], [x], t);
    ScoreAppend(b[..j], b[j + 1..], t);
  }

  /** Reordering the answers never changes the result. */
  lemma ResultPermutationInvariant(a: seq<Answer>, b: seq<Answer>)
    requires multiset(a) == multiset(b)
    ensures Pick(ScoresOf(a)) == Pick(ScoresOf(b))
  {
    ScorePermutation(a, b, Optimizer);
    ScorePermutation(a, b, Harmonizer);
    ScorePermutation(a, b, Planner);
    ScorePermutation(a, b, Innovator);
  }
}
