/** The adaptive-difficulty counter `UserProgress` of Backend/app/agents.py: two
    counters and the tier derived from their ratio. */
module Difficulty {

  datatype Level = Beginner | Intermediate | Advanced
  {
    /** The string `get_level` returns. */
    function Name(): string
    {
      match this
      case Beginner => "beginner"
      case Intermediate => "intermediate"
      case Advanced => "advanced"
    }

    /** Position in the order beginner < intermediate < advanced. */
    function Rank(): nat
    {
      match this
      case Beginner => 0
      case Intermediate => 1
      case Advanced => 2
    }
  }

  datatype UserProgress = UserProgress(correctAnswers: nat, totalQuestions: nat)
  {
    /** No more correct answers than questions. */
    predicate Valid()
    {
      correctAnswers <= totalQuestions
    }
  }

  /** The state `UserProgress()` is constructed in. */
  const Fresh := UserProgress(0, 0)

  /** `update(is_correct)`: one more question, and one more correct answer when
      it was answered correctly. */
  function Update(p: UserProgress, isCorrect: bool): (r: UserProgress)
    ensures r.totalQuestions == p.totalQuestions + 1
    ensures r.correctAnswers == p.correctAnswers + 1 <==> isCorrect
    ensures r.correctAnswers == p.correctAnswers <==> !isCorrect
    ensures p.Valid() ==> r.Valid()
  {
    var total := p.totalQuestions + 1;
    if isCorrect then UserProgress(p.correctAnswers + 1, total)
    else UserProgress(p.correctAnswers, total)
  }

  /** `correct / total`, or 0 before any question; exact rational arithmetic
      stands for Python's float division. */
  function Accuracy(p: UserProgress): real
  {
    if p.totalQuestions > 0 then p.correctAnswers as real / p.totalQuestions as real else 0.0
  }

  /** `get_level()`: strictly above 0.8 is advanced, strictly above 0.5 is
      intermediate, anything else beginner. In integer terms: advanced iff
      5·correct > 4·total, intermediate iff additionally 5·correct <= 4·total
      and 2·correct > total, beginner when no question was asked. */
  function GetLevel(p: UserProgress): (l: Level)
    ensures l == Advanced <==>
              p.totalQuestions > 0 && 5 * p.correctAnswers > 4 * p.totalQuestions
    ensures l == Intermediate <==>
              p.totalQuestions > 0 && 5 * p.correctAnswers <= 4 * p.totalQuestions
              && 2 * p.correctAnswers > p.totalQuestions
    ensures l == Beginner <==>
              p.totalQuestions == 0 || 2 * p.correctAnswers <= p.totalQuestions
  {
    var accuracy := Accuracy(p);
    AccuracyThresholds(p);
    if accuracy > 0.8 then Advanced
    else if accuracy > 0.5 then Intermediate
    else Beginner
  }

  lemma AccuracyAbove(c: nat, t: nat, num: nat, den: nat)
    requires t > 0 && den > 0
    ensures c as real / t as real > num as real / den as real <==> den * c > num * t
  {
    var x := c as real / t as real;
    assert x * t as real == c as real;
    var y := num as real / den as real;
    assert y * den as real == num as real;
    assert (den * c) as real == den as real * c as real;
    assert (num * t) as real == num as real * t as real;
    if x > y {
      assert x * (t as real * den as real) > y * (t as real * den as real);
    } else {
      assert x * (t as real * den as real) <= y * (t as real * den as real);
    }
  }

  /** The two float comparisons of `get_level()` as integer comparisons. */
  lemma AccuracyThresholds(p: UserProgress)
    ensures Accuracy(p) > 0.8 <==>
              p.totalQuestions > 0 && 5 * p.correctAnswers > 4 * p.totalQuestions
    ensures Accuracy(p) > 0.5 <==>
              p.totalQuestions > 0 && 2 * p.correctAnswers > p.totalQuestions
  {
    if p.totalQuestions > 0 {
      assert 0.8 == 4 as real / 5 as real;
      assert 0.5 == 1 as real / 2 as real;
      AccuracyAbove(p.correctAnswers, p.totalQuestions, 4, 5);
      AccuracyAbove(p.correctAnswers, p.totalQuestions, 1, 2);
    }
  }

  /** The boundary ratios fall to the lower tier: 4/5 is intermediate, 1/2 is
      beginner, while 5/6 and 3/5 are above them. */
  lemma BoundaryRatios()
    ensures GetLevel(UserProgress(4, 5)) == Intermediate
    ensures GetLevel(UserProgress(1, 2)) == Beginner
    ensures GetLevel(UserProgress(5, 6)) == Advanced
    ensures GetLevel(UserProgress(3, 5)) == Intermediate
  {
  }

  /** A correct answer never lowers the tier, a wrong one never raises it. */
  lemma UpdateMonotone(p: UserProgress)
    requires p.Valid()
    ensures GetLevel(Update(p, true)).Rank() >= GetLevel(p).Rank()
    ensures GetLevel(Update(p, false)).Rank() <= GetLevel(p).Rank()
  {
  }

  /** Applying `update` once per answer, in order. */
  function UpdateAll(p: UserProgress, answers: seq<bool>): UserProgress
    decreases |answers|
  {
    if |answers| == 0 then p else UpdateAll(Update(p, answers[0]), answers[1..])
  }

  function CountCorrect(answers: seq<bool>): (n: nat)
    ensures n <= |answers|
  {
    if |answers| == 0 then 0 else (if answers[0] then 1 else 0) + CountCorrect(answers[1..])
  }

  /** Any sequence of updates adds one question per call and one correct answer
      per true call, so from a fresh tracker correct <= total always holds. */
  lemma {:induction false} UpdateAllCounts(p: UserProgress, answers: seq<bool>)
    decreases |answers|
    ensures UpdateAll(p, answers).totalQuestions == p.totalQuestions + |answers|
    ensures UpdateAll(p, answers).correctAnswers == p.correctAnswers + CountCorrect(answers)
    ensures p.Valid() ==> UpdateAll(p, answers).Valid()
  {
    if |answers| > 0 {
      UpdateAllCounts(Update(p, answers[0]), answers[1..]);
    }
  }

  lemma FreshStaysValid(answers: seq<bool>)
    ensures UpdateAll(Fresh, answers).Valid()
    ensures UpdateAll(Fresh, answers).totalQuestions == |answers|
  {
    UpdateAllCounts(Fresh, answers);
  }
}
