/** The daily quiz: the `quiz_data` record, the day-streak update, question
    generation from the dataset, answer bookkeeping and accuracy. */
module Quiz {
  import opened Seqs
  import opened Dataset
  import opened Rounding
  import opened Options
  import Gamification

  /** The `quiz_data` record. Dates are day numbers. The stored `answers`
      list is never read or written after creation and is not carried. */
  datatype QuizData = QuizData(
    lastQuizDate: Option<int>,
    totalQuestions: nat,
    correctAnswers: nat,
    consecutiveDays: int,
    lastConsecutiveDate: Option<int>)

  /** The record a first run creates. */
  const FreshQuiz: QuizData := QuizData(None, 0, 0, 0, None)

  /** The three question kinds. */
  datatype Kind = Event | Location | Year

  /** A generated question. The prompt and explanation texts are
      presentation and are not carried. */
  datatype Question = Question(kind: Kind, correct: string, options: seq<string>, item: Entry, date: int)

  /** The random draws of one generation: the item index (taken modulo the
      number of items), the kind, and the choices driving the two shuffles. */
  datatype Choice = Choice(item: nat, kind: Kind, poolOrder: seq<nat>, optionOrder: seq<nat>)

  /** The in-memory quiz state: the record and the current question. */
  datatype QuizState = QuizState(quiz: QuizData, current: Option<Question>)

  /** The answer the chosen kind asks for. */
  function Answer(e: Entry, kind: Kind): string {
    match kind
    case Event => e.item.dynasty
    case Location => e.city
    case Year => e.item.year
  }

  /** The candidate pool of the chosen kind: values of that kind seen among
      all items, then the kind's fallback list. */
  function KindPool(all: seq<Entry>, e: Entry, kind: Kind): (r: seq<string>)
    ensures NoDup(r) && Answer(e, kind) !in r && |r| >= 3
  {
    var correct := Answer(e, kind);
    var seen := seq(|all|, i requires 0 <= i < |all| => Answer(all[i], kind));
    match kind
    case Event =>
      EventPool(correct, seen);
      Pool(correct, seen, Without(CommonDynasties, correct))
    case Location =>
      LocationPool(correct, seen);
      Pool(correct, seen, Without(CommonCities, correct))
    case Year =>
      YearPool(correct, seen);
      Pool(correct, seen, WrongYears(correct))
  }

  /** `generateDailyQuestion`. A missing or empty dataset, or one without any
      item, leaves the current question as it was. Otherwise an item of the
      flattened dataset is drawn, and the question asks for its dynasty, city
      or year with four distinct options: the correct answer and three drawn
      from the pool of that kind. */
  function GenerateDailyQuestion(data: seq<City>, current: Option<Question>, today: int, ch: Choice): (r: Option<Question>)
    ensures TotalItems(data) == 0 ==> r == current
    ensures TotalItems(data) > 0 ==>
              && r.Some?
              && r.value.item in Flatten(data)
              && r.value.kind == ch.kind
              && r.value.correct == Answer(r.value.item, ch.kind)
              && |r.value.options| == 4
              && NoDup(r.value.options)
              && r.value.correct in r.value.options
              && r.value.date == today
    ensures TotalItems(data) > 0 ==>
              r.Some? && forall o :: o in r.value.options ==>
                           o == r.value.correct || o in KindPool(Flatten(data), r.value.item, ch.kind)
  {
    if |data| == 0 then current
    else
      var all := Flatten(data);
      if |all| == 0 then current
      else
        var e := all[ch.item % |all|];
        var correct := Answer(e, ch.kind);
        var pool := KindPool(all, e, ch.kind);
        Some(Question(ch.kind, correct, PickOptions(correct, pool, ch.poolOrder, ch.optionOrder), e, today))
  }

  /** Every item can be asked about, in every kind: each entry of the
      flattened dataset is drawn by some item index. */
  lemma EveryItemReachable(data: seq<City>, current: Option<Question>, today: int, ch: Choice, k: nat)
    requires k < TotalItems(data)
    ensures GenerateDailyQuestion(data, current, today, ch.(item := k)).value.item == Flatten(data)[k]
  {
    var all := Flatten(data);
    assert |data| > 0;
    ModSmall(k, |all|);
  }

  /** The streak rule of `checkDailyQuiz` for a day other than the last quiz
      day: no earlier date starts the streak at 1, a one-day gap extends it,
      a longer gap restarts it at 1, and a last-quiz date later than today
      leaves it. */
  function Streak(q: QuizData, today: int): (r: QuizData)
    ensures r.lastQuizDate == q.lastQuizDate
    ensures r.totalQuestions == q.totalQuestions && r.correctAnswers == q.correctAnswers
    ensures r.consecutiveDays == q.consecutiveDays || r.lastConsecutiveDate == Some(today)
  {
    match q.lastQuizDate
    case None => q.(consecutiveDays := 1, lastConsecutiveDate := Some(today))
    case Some(last) =>
      if today - last == 1 then q.(consecutiveDays := q.consecutiveDays + 1, lastConsecutiveDate := Some(today))
      else if today - last > 1 then q.(consecutiveDays := 1, lastConsecutiveDate := Some(today))
      else q
  }

  /** `checkDailyQuiz`: on the day of the last quiz nothing happens;
      otherwise the streak is updated and a new question generated. The
      last quiz date itself is left alone: only answering sets it. */
  function CheckDailyQuiz(st: QuizState, today: int, data: seq<City>, ch: Choice): (r: QuizState)
    ensures st.quiz.lastQuizDate == Some(today) ==> r == st
    ensures st.quiz.lastQuizDate != Some(today) ==>
              && r.quiz == Streak(st.quiz, today)
              && r.current == GenerateDailyQuestion(data, st.current, today, ch)
    ensures r.quiz.lastQuizDate == st.quiz.lastQuizDate
    ensures r.quiz.totalQuestions == st.quiz.totalQuestions && r.quiz.correctAnswers == st.quiz.correctAnswers
  {
    if st.quiz.lastQuizDate == Some(today) then st
    else QuizState(Streak(st.quiz, today), GenerateDailyQuestion(data, st.current, today, ch))
  }

  /** The streak values `checkDailyQuiz` produces, case by case. */
  lemma StreakCases(st: QuizState, today: int, data: seq<City>, ch: Choice)
    requires st.quiz.lastQuizDate != Some(today)
    ensures var q := CheckDailyQuiz(st, today, data, ch).quiz;
            && (st.quiz.lastQuizDate.None? ==> q.consecutiveDays == 1 && q.lastConsecutiveDate == Some(today))
            && (st.quiz.lastQuizDate == Some(today - 1) ==>
                  q.consecutiveDays == st.quiz.consecutiveDays + 1 && q.lastConsecutiveDate == Some(today))
            && (st.quiz.lastQuizDate.Some? && today - st.quiz.lastQuizDate.value > 1 ==>
                  q.consecutiveDays == 1 && q.lastConsecutiveDate == Some(today))
            && (st.quiz.lastQuizDate.Some? && today < st.quiz.lastQuizDate.value ==> q == st.quiz)
  {
  }

  /** Because the check does not record the day, running it twice on the
      day after the last quiz extends the streak twice. */
  lemma CheckTwiceCountsTwice(st: QuizState, today: int, data: seq<City>, ch1: Choice, ch2: Choice)
    requires st.quiz.lastQuizDate == Some(today - 1)
    ensures CheckDailyQuiz(CheckDailyQuiz(st, today, data, ch1), today, data, ch2).quiz.consecutiveDays
            == st.quiz.consecutiveDays + 2
  {
    StreakCases(st, today, data, ch1);
    StreakCases(CheckDailyQuiz(st, today, data, ch1), today, data, ch2);
  }

  /** `correctAnswers` never exceeds `totalQuestions`. */
  predicate Consistent(q: QuizData) {
    q.correctAnswers <= q.totalQuestions
  }

  /** The outcome of answering: the quiz record and the user stats. */
  datatype Answered = Answered(quiz: QuizData, stats: Gamification.UserStats)

  /** `selectAnswer`: the question count always grows by one; the correct
      count grows, and five points are awarded through `addPoints`, exactly
      when the selected option is the correct answer; the day becomes the
      last quiz date. `quiz_master` reads the stored streak and `collector`
      the stored favourites count. */
  function SelectAnswer(q: QuizData, question: Question, selected: string, today: int,
                        s: Gamification.UserStats, favoriteCount: nat): (r: Answered)
    ensures r.quiz.totalQuestions == q.totalQuestions + 1
    ensures r.quiz.correctAnswers == q.correctAnswers + (if selected == question.correct then 1 else 0)
    ensures r.quiz.lastQuizDate == Some(today)
    ensures r.quiz.consecutiveDays == q.consecutiveDays && r.quiz.lastConsecutiveDate == q.lastConsecutiveDate
    ensures Consistent(q) ==> Consistent(r.quiz)
    ensures selected == question.correct ==>
              && Gamification.Ledger(s, r.stats, 5)
              && Gamification.SameProgress(s, r.stats)
              && Gamification.IsSettled(r.stats, Gamification.Outside(favoriteCount, q.consecutiveDays))
    ensures selected == question.correct ==>
              Gamification.Awarded(s, r.stats, 5, Gamification.Outside(favoriteCount, q.consecutiveDays))
    ensures NoDup(s.achievements) ==> NoDup(r.stats.achievements)
    ensures selected != question.correct ==> r.stats == s
  {
    var env := Gamification.Outside(favoriteCount, q.consecutiveDays);
    if selected == question.correct then
      CorrectAward(s, env);
      Answered(q.(totalQuestions := q.totalQuestions + 1, correctAnswers := q.correctAnswers + 1,
                  lastQuizDate := Some(today)),
               Gamification.AddPoints(s, 5, env))
    else
      Answered(q.(totalQuestions := q.totalQuestions + 1, lastQuizDate := Some(today)), s)
  }

  /** The five-point award of a correct answer: progress untouched, the
      record settled, and exactly the entries unlocked before or holding now
      unlocked, each with its reward. */
  lemma CorrectAward(s: Gamification.UserStats, env: Gamification.Outside)
    ensures var r := Gamification.AddPoints(s, 5, env);
            && Gamification.SameProgress(s, r)
            && Gamification.IsSettled(r, env)
            && Gamification.Awarded(s, r, 5, env)
            && (NoDup(s.achievements) ==> NoDup(r.achievements))
  {
    var t := s.(totalPoints := s.totalPoints + 5);
    Gamification.AddPointsSettles(s, 5, env);
    Gamification.AwardThenCheck(s, 5, env);
    Gamification.SettleSpec(t, env);
  }

  /** After answering, a check on the same day does nothing. */
  lemma AnswerThenCheck(st: QuizState, question: Question, selected: string, today: int,
                        s: Gamification.UserStats, favoriteCount: nat, data: seq<City>, ch: Choice)
    ensures var a := SelectAnswer(st.quiz, question, selected, today, s, favoriteCount);
            CheckDailyQuiz(QuizState(a.quiz, st.current), today, data, ch) == QuizState(a.quiz, st.current)
  {
  }

  /** The checks keep the record consistent. */
  lemma CheckKeepsConsistent(st: QuizState, today: int, data: seq<City>, ch: Choice)
    requires Consistent(st.quiz)
    ensures Consistent(CheckDailyQuiz(st, today, data, ch).quiz)
  {
  }

  /** `Math.round(correct / total * 100)`, or 0 before any question. */
  function Accuracy(q: QuizData): (r: nat)
    ensures q.totalQuestions == 0 ==> r == 0
    ensures q.totalQuestions > 0 ==>
              q.totalQuestions * (2 * r - 1) <= 200 * q.correctAnswers < q.totalQuestions * (2 * r + 1)
    ensures Consistent(q) ==> r <= 100
  {
    if q.totalQuestions > 0 then RoundedPercent(q.correctAnswers, q.totalQuestions) else 0
  }

  /** `getQuizStats`. */
  datatype QuizStats = QuizStats(totalQuestions: nat, correctAnswers: nat, accuracy: nat, consecutiveDays: int)

  function GetQuizStats(q: QuizData): (r: QuizStats)
    ensures r.totalQuestions == q.totalQuestions && r.correctAnswers == q.correctAnswers
    ensures r.consecutiveDays == q.consecutiveDays
    ensures Consistent(q) ==> r.accuracy <= 100
    ensures q.totalQuestions > 0 && q.correctAnswers == q.totalQuestions ==> r.accuracy == 100
    ensures q.correctAnswers == 0 ==> r.accuracy == 0
  {
    var r := QuizStats(q.totalQuestions, q.correctAnswers, Accuracy(q), q.consecutiveDays);
    assert q.totalQuestions > 0 && q.correctAnswers == q.totalQuestions ==> r.accuracy == 100 by {
      if q.totalQuestions > 0 && q.correctAnswers == q.totalQuestions {
        RoundedPercentUnique(q.correctAnswers, q.totalQuestions, 100);
      }
    }
    assert q.totalQuestions > 0 && q.correctAnswers == 0 ==> r.accuracy == 0 by {
      if q.totalQuestions > 0 && q.correctAnswers == 0 {
        RoundedPercentUnique(0, q.totalQuestions, 0);
      }
    }
    r
  }

  /** Two right answers out of three show as 67%. */
  lemma AccuracyExample()
    ensures Accuracy(QuizData(None, 3, 2, 0, None)) == 67
  {
    RoundedPercentUnique(2, 3, 67);
  }
}
