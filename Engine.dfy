/** The conversation state machine behind `SynologyChatBot.process_question`,
    as a function from (knowledge base, session, normalised message) to the
    next session and the reply.  The imperative `Bot.ChatBot.ProcessQuestion`
    is proved to compute exactly this. */
module Engine {
  import opened Wrappers
  import opened TextNorm
  import opened Decimal
  import opened KnowledgeBase
  import opened Menus

  datatype State = MainMenu | CategorySelected | QuestionSelected

  /** The navigation part of a `UserSession`: `state`, `selected_category`
      (a category key) and `selected_question` (a 0-based index). */
  datatype Session = Session(state: State, category: Option<string>, question: Option<nat>)

  /** A fresh or reset session. */
  const Initial: Session := Session(MainMenu, None, None)

  /** The `category` field of the reply: `'main_menu'`, `'error'` or the key of
      the category the reply belongs to. */
  datatype Tag = MainMenuTag | ErrorTag | CategoryTag(key: string)

  /** The string the source puts in the reply's `category` field. */
  function TagText(t: Tag): string
  {
    match t
    case MainMenuTag => "main_menu"
    case ErrorTag => "error"
    case CategoryTag(key) => key
  }

  datatype Reply = Reply(text: string, tag: Tag)

  const WrongChoice: string := "\U{274C} **Неверный выбор!**\n\n"
  const EnterCategoryNumber: string := "\U{274C} **Пожалуйста, введите цифру от 1 до 5**\n\n"
  const UnknownCommand: string := "\U{274C} **Неизвестная команда**\n\n"

  function EnterQuestionNumber(count: nat): string
  {
    "\U{274C} **Пожалуйста, введите цифру от 1 до " + NatToDecimal(count) + "**\n\n"
  }

  /** What every reachable session satisfies: no selection in the main menu,
      a category that is a key of the knowledge base in the other two states,
      and in `QuestionSelected` a question index inside that category.  A
      stale `question` may remain in `CategorySelected`. */
  predicate SessionOk(kb: Kb, s: Session)
  {
    match s.state
    case MainMenu => s.category == None && s.question == None
    case CategorySelected => s.category.Some? && HasKey(kb, s.category.value)
    case QuestionSelected =>
      && s.category.Some? && HasKey(kb, s.category.value)
      && s.question.Some? && s.question.value < |Lookup(kb, s.category.value).questions|
  }

  function MainMenuReply(kb: Kb): Reply
  {
    Reply(MainMenuText(kb), MainMenuTag)
  }

  function QuestionListReply(kb: Kb, key: string): Reply
    requires HasKey(kb, key)
  {
    Reply(QuestionListText(Lookup(kb, key)), CategoryTag(key))
  }

  /** One turn of the conversation on an already normalised message. */
  function Step(kb: Kb, s: Session, input: string): (r: (Session, Reply))
    requires SessionOk(kb, s)
    ensures SessionOk(kb, r.0)
  {
    if input in ResetWords then (Initial, MainMenuReply(kb))
    else if input == BackWord then
      if s.state == QuestionSelected then
        (s.(state := CategorySelected), QuestionListReply(kb, s.category.value))
      else
        (Initial, MainMenuReply(kb))
    else match s.state
      case MainMenu =>
        (match ParseChoice(input)
         case Number(n) =>
           if 1 <= n <= |kb| then
             var key := kb[n - 1].key;
             (s.(state := CategorySelected, category := Some(key)), QuestionListReply(kb, key))
           else
             (s, Reply(WrongChoice + MainMenuText(kb), ErrorTag))
         case NotANumber =>
           (s, Reply(EnterCategoryNumber + MainMenuText(kb), ErrorTag)))
      case CategorySelected =>
        var key := s.category.value;
        var count := |Lookup(kb, key).questions|;
        (match ParseChoice(input)
         case Number(n) =>
           if 1 <= n <= count then
             (s.(state := QuestionSelected, question := Some(n - 1)),
              Reply(GetQuestionAnswer(kb, key, n - 1), CategoryTag(key)))
           else
             (s, Reply(WrongChoice + QuestionListText(Lookup(kb, key)), ErrorTag))
         case NotANumber =>
           (s, Reply(EnterQuestionNumber(count) + QuestionListText(Lookup(kb, key)), ErrorTag)))
      case QuestionSelected =>
        var key := s.category.value;
        (s, Reply(UnknownCommand + GetQuestionAnswer(kb, key, s.question.value), CategoryTag(key)))
  }

  /** The commands, typed as they are advertised, survive normalisation. */
  lemma CommandsAreCanonical()
    ensures forall w | w in ResetWords :: NormalizeText(w) == w
    ensures NormalizeText(BackWord) == BackWord
    ensures BackWord !in ResetWords
  {
    CommandsAreLowercaseWords();
    forall w | w in ResetWords ensures NormalizeText(w) == w {
      LowercaseWordFixed(w);
    }
    LowercaseWordFixed(BackWord);
    BackIsNoReset();
  }

  /** A non-empty word of lower-case Latin or Cyrillic letters. */
  predicate LowercaseWord(w: string)
  {
    w != [] && forall i | 0 <= i < |w| :: 'a' <= w[i] <= 'z' || '\U{430}' <= w[i] <= '\U{44F}'
  }

  lemma CommandsAreLowercaseWords()
    ensures forall w | w in ResetWords :: LowercaseWord(w)
    ensures LowercaseWord(BackWord)
  {
  }

  /** `назад` is not one of the reset commands. */
  lemma BackIsNoReset()
    ensures BackWord !in ResetWords
  {
    assert ResetWords[0][0] == 'м' && ResetWords[1][0] == 'm' && ResetWords[3][0] == 'с' && ResetWords[4][0] == 's';
    assert |ResetWords[2]| != |BackWord|;
  }

  /** A word of lower-case Latin or Cyrillic letters is left as it is. */
  lemma LowercaseWordFixed(w: string)
    requires LowercaseWord(w)
    ensures NormalizeText(w) == w
  {
    forall c | c in w ensures !IsSpace(c) && CanonicalChar(c) {
      var i :| 0 <= i < |w| && w[i] == c;
    }
    assert w[0] in w && w[|w| - 1] in w;
    forall i | 0 <= i < |w| - 1 ensures !IsSpace(w[i]) {
      assert w[i] in w;
    }
    CanonicalFixed(w);
  }

  lemma NumeralIsCanonical(s: string)
    requires AllDecimal(s)
    ensures Canonical(s)
  {
    forall c | c in s ensures !IsSpace(c) && CanonicalChar(c) {
      assert IsDecimalDigit(c);
    }
    if s != [] {
      assert s[0] in s && s[|s| - 1] in s;
    }
    forall i | 0 <= i < |s| - 1 ensures !IsSpace(s[i]) {
      assert s[i] in s;
    }
  }

  lemma NumeralIsNoCommand(s: string)
    requires s != [] && AllDecimal(s)
    ensures s !in ResetWords && s != BackWord
  {
    assert IsDecimalDigit(s[0]) by { assert s[0] in s; }
    assert ResetWords[0][0] == 'м' && ResetWords[1][0] == 'm' && ResetWords[2][0] == 'н';
    assert ResetWords[3][0] == 'с' && ResetWords[4][0] == 's' && BackWord[0] == 'н';
  }

  /** A numeral is neither a command nor changed by normalisation. */
  lemma NumeralIsPlainInput(s: string)
    requires s != [] && AllDecimal(s)
    ensures NormalizeText(s) == s
    ensures s !in ResetWords && s != BackWord
  {
    NumeralIsCanonical(s);
    CanonicalFixed(s);
    NumeralIsNoCommand(s);
  }

  /** The superscript two is a word character, already lower case. */
  lemma SuperscriptIsCanonical()
    ensures Canonical("\U{B2}")
  {
    assert "\U{B2}"[0] == '\U{B2}';
    assert forall c | c in "\U{B2}" :: c == '\U{B2}';
  }

  /** A message `²` in the main menu: normalisation keeps it and it is no
      command, so it reaches the menu choice, where the source's `int()`
      raises; this model answers with the "enter a number" error instead. */
  lemma SuperscriptReachesChoice(kb: Kb)
    ensures NormalizeText("\U{B2}") == "\U{B2}"
    ensures "\U{B2}" !in ResetWords && "\U{B2}" != BackWord
    ensures ChoiceAsWritten(NormalizeText("\U{B2}")) == None
    ensures Step(kb, Initial, NormalizeText("\U{B2}")) ==
      (Initial, Reply(EnterCategoryNumber + MainMenuText(kb), ErrorTag))
  {
    SuperscriptIsCanonical();
    CanonicalFixed("\U{B2}");
    SuperscriptRaises();
    assert |ResetWords[0]| != 1 && |ResetWords[1]| != 1 && |ResetWords[2]| != 1;
    assert |ResetWords[3]| != 1 && |ResetWords[4]| != 1 && |BackWord| != 1;
    assert !IsDecimalDigit('\U{B2}') && "\U{B2}"[0] == '\U{B2}';
  }

  /** A message of 4301 ones in the main menu: normalisation keeps it and it
      is no command, so it reaches the menu choice, where the source's `int()`
      raises; this model reads the number and, with fewer categories than
      that, answers with the wrong-choice error. */
  lemma LongNumeralReachesChoice(kb: Kb) returns (s: string)
    requires |kb| <= IntMaxStrDigits
    ensures |s| == IntMaxStrDigits + 1 && forall k | 0 <= k < |s| :: s[k] == '1'
    ensures NormalizeText(s) == s && s !in ResetWords && s != BackWord
    ensures ChoiceAsWritten(NormalizeText(s)) == None
    ensures Step(kb, Initial, NormalizeText(s)) == (Initial, Reply(WrongChoice + MainMenuText(kb), ErrorTag))
  {
    s := LongNumeralRaises();
    OnesValue(s);
    NumeralIsPlainInput(s);
  }

  /** A reset command returns to the main menu from every state, whatever the
      selections were. */
  lemma ResetFromAnyState(kb: Kb, s: Session, input: string)
    requires SessionOk(kb, s) && input in ResetWords
    ensures Step(kb, s, input) == (Initial, MainMenuReply(kb))
    ensures Step(kb, s, input).0.category == None && Step(kb, s, input).0.question == None
  {
  }

  /** A command typed with any of its letters in capitals normalises to the
      command. */
  lemma CasedCommandNormalizes(typed: string, command: string)
    requires (command in ResetWords || command == BackWord) && CasingOf(typed, command)
    ensures NormalizeText(typed) == command
  {
    NormalizeIgnoresCase(typed, command);
    CommandsAreCanonical();
  }

  /** So a reset word in capitals still resets from every state, and `назад`
      in capitals still goes back. */
  lemma CapitalisedCommand(kb: Kb, s: Session, typed: string, command: string)
    requires SessionOk(kb, s) && (command in ResetWords || command == BackWord)
    requires CasingOf(typed, command)
    ensures command in ResetWords ==> Step(kb, s, NormalizeText(typed)) == (Initial, MainMenuReply(kb))
    ensures command == BackWord ==> Step(kb, s, NormalizeText(typed)) == Step(kb, s, BackWord)
  {
    CasedCommandNormalizes(typed, command);
  }

  /** `МЕНЮ`, `Start` and `НАЗАД` are read as the commands `меню`, `start`
      and `назад`. */
  lemma CapitalCommandExamples()
    ensures NormalizeText("МЕНЮ") == ResetWords[0]
    ensures NormalizeText("Start") == ResetWords[4]
    ensures NormalizeText("НАЗАД") == BackWord
  {
    MenuCasing();
    StartCasing();
    BackCasing();
    CasedCommandNormalizes("МЕНЮ", ResetWords[0]);
    CasedCommandNormalizes("Start", ResetWords[4]);
    CasedCommandNormalizes("НАЗАД", BackWord);
  }

  lemma MenuCasing()
    ensures CasingOf("МЕНЮ", ResetWords[0])
  {
    var w := ResetWords[0];
    assert "МЕНЮ"[0] == Upper(w[0]) && "МЕНЮ"[1] == Upper(w[1]);
    assert "МЕНЮ"[2] == Upper(w[2]) && "МЕНЮ"[3] == Upper(w[3]);
  }

  lemma StartCasing()
    ensures CasingOf("Start", ResetWords[4])
  {
    assert "Start"[0] == Upper(ResetWords[4][0]);
  }

  lemma BackCasing()
    ensures CasingOf("НАЗАД", BackWord)
  {
    assert "НАЗАД"[0] == Upper(BackWord[0]) && "НАЗАД"[1] == Upper(BackWord[1]);
    assert "НАЗАД"[2] == Upper(BackWord[2]) && "НАЗАД"[3] == Upper(BackWord[3]);
    assert "НАЗАД"[4] == Upper(BackWord[4]);
  }

  /** Back from an answer goes to the question list of the same category and
      leaves the question index as it was. */
  lemma BackFromAnswer(kb: Kb, s: Session)
    requires SessionOk(kb, s) && s.state == QuestionSelected
    ensures Step(kb, s, BackWord).0 == Session(CategorySelected, s.category, s.question)
    ensures Step(kb, s, BackWord).1 == Reply(QuestionListText(Lookup(kb, s.category.value)),
                                             CategoryTag(s.category.value))
  {
    CommandsAreCanonical();
  }

  /** Back from the main menu or from a question list resets the session. */
  lemma BackElsewhereResets(kb: Kb, s: Session)
    requires SessionOk(kb, s) && s.state != QuestionSelected
    ensures Step(kb, s, BackWord) == (Initial, MainMenuReply(kb))
  {
    CommandsAreCanonical();
  }

  /** In the main menu, a numeral `n` with 1 <= n <= number of categories
      selects the n-th category in order; anything else changes nothing and is
      tagged as an error. */
  lemma MainMenuChoice(kb: Kb, s: Session, input: string)
    requires DistinctKeys(kb) && SessionOk(kb, s) && s.state == MainMenu
    requires input !in ResetWords && input != BackWord
    ensures var r := Step(kb, s, input);
            var c := ParseChoice(input);
            (r.1.tag != ErrorTag <==> c.Number? && 1 <= c.value <= |kb|)
            && (c.Number? && 1 <= c.value <= |kb| ==>
                  && r.0 == Session(CategorySelected, Some(kb[c.value - 1].key), None)
                  && r.1 == Reply(QuestionListText(kb[c.value - 1]), CategoryTag(kb[c.value - 1].key)))
            && (r.1.tag == ErrorTag ==>
                  && r.0 == s
                  && r.1.text == (if c.Number? then WrongChoice else EnterCategoryNumber) + MainMenuText(kb))
  {
    var c := ParseChoice(input);
    if c.Number? && 1 <= c.value <= |kb| {
      LookupAt(kb, c.value - 1);
    }
  }

  /** In a question list, a numeral `n` with 1 <= n <= number of questions
      selects question n - 1 and shows its answer; anything else changes
      nothing and is tagged as an error. */
  lemma CategoryChoice(kb: Kb, s: Session, input: string)
    requires SessionOk(kb, s) && s.state == CategorySelected
    requires input !in ResetWords && input != BackWord
    ensures var key := s.category.value;
            var count := |Lookup(kb, key).questions|;
            var r := Step(kb, s, input);
            var c := ParseChoice(input);
            (r.1.tag != ErrorTag <==> c.Number? && 1 <= c.value <= count)
            && (c.Number? && 1 <= c.value <= count ==>
                  && r.0 == Session(QuestionSelected, s.category, Some(c.value - 1))
                  && r.1 == Reply(GetQuestionAnswer(kb, key, c.value - 1), CategoryTag(key)))
            && (r.1.tag == ErrorTag ==>
                  && r.0 == s
                  && r.1.text == (if c.Number? then WrongChoice else EnterQuestionNumber(count))
                                 + QuestionListText(Lookup(kb, key)))
  {
  }

  /** After an answer, anything but a command re-renders the same answer under
      the category's tag and changes nothing. */
  lemma AnswerIgnoresOtherInput(kb: Kb, s: Session, input: string)
    requires SessionOk(kb, s) && s.state == QuestionSelected
    requires input !in ResetWords && input != BackWord
    ensures Step(kb, s, input) ==
      (s, Reply(UnknownCommand + GetQuestionAnswer(kb, s.category.value, s.question.value),
                CategoryTag(s.category.value)))
  {
  }

  /** An error reply never moves the session, and happens only where a number
      is expected. */
  lemma ErrorChangesNothing(kb: Kb, s: Session, input: string)
    requires SessionOk(kb, s)
    ensures Step(kb, s, input).1.tag == ErrorTag ==> Step(kb, s, input).0 == s
    ensures Step(kb, s, input).1.tag == ErrorTag ==> s.state != QuestionSelected
  {
  }

  /** The number the main menu prints beside category k selects category k. */
  lemma PrintedNumberSelectsCategory(kb: Kb, k: nat)
    requires DistinctKeys(kb) && k < |kb|
    ensures Step(kb, Initial, NormalizeText(NatToDecimal(k + 1))) ==
      (Session(CategorySelected, Some(kb[k].key), None),
       Reply(QuestionListText(kb[k]), CategoryTag(kb[k].key)))
  {
    var input := NatToDecimal(k + 1);
    NumeralIsPlainInput(input);
    ParseChoiceRoundTrip(k + 1);
    MainMenuChoice(kb, Initial, input);
  }

  /** The number a question list prints beside question j selects question j. */
  lemma PrintedNumberSelectsQuestion(kb: Kb, s: Session, j: nat)
    requires SessionOk(kb, s) && s.state == CategorySelected
    requires j < |Lookup(kb, s.category.value).questions|
    ensures Step(kb, s, NormalizeText(NatToDecimal(j + 1))) ==
      (Session(QuestionSelected, s.category, Some(j)),
       Reply(GetQuestionAnswer(kb, s.category.value, j), CategoryTag(s.category.value)))
  {
    var input := NatToDecimal(j + 1);
    NumeralIsPlainInput(input);
    ParseChoiceRoundTrip(j + 1);
    CategoryChoice(kb, s, input);
  }

  /** Main menu, category i, question j, back, back: the session is reset. */
  lemma NavigationRoundTrip(kb: Kb, i: nat, j: nat)
    requires DistinctKeys(kb) && i < |kb| && j < |kb[i].questions|
    ensures var s1 := Step(kb, Initial, NormalizeText(NatToDecimal(i + 1))).0;
            var s2 := Step(kb, s1, NormalizeText(NatToDecimal(j + 1))).0;
            var s3 := Step(kb, s2, NormalizeText(BackWord)).0;
            var s4 := Step(kb, s3, NormalizeText(BackWord)).0;
            && s2 == Session(QuestionSelected, Some(kb[i].key), Some(j))
            && s3 == Session(CategorySelected, Some(kb[i].key), Some(j))
            && s4 == Initial
  {
    PrintedNumberSelectsCategory(kb, i);
    var s1 := Step(kb, Initial, NormalizeText(NatToDecimal(i + 1))).0;
    LookupAt(kb, i);
    PrintedNumberSelectsQuestion(kb, s1, j);
    var s2 := Step(kb, s1, NormalizeText(NatToDecimal(j + 1))).0;
    CommandsAreCanonical();
    BackFromAnswer(kb, s2);
    var s3 := Step(kb, s2, BackWord).0;
    BackElsewhereResets(kb, s3);
  }
  /** The numerals of the scenario below are already in normal form (the
      commands are, by `CommandsAreCanonical`). */
  lemma ScenarioNumeralsAreNormal()
    ensures NormalizeText("1") == "1" && NormalizeText("99") == "99"
  {
    NumeralIsPlainInput("1");
    NumeralIsPlainInput("99");
  }

  /** A new user with categories `dsm` and `backup` sends `старт`, `1`, `99`
      and `назад` (each its own normal form): the main menu, the `dsm` list,
      an out-of-range error that keeps the list open, the main menu again. */
  lemma DsmBackupScenario(dsmName: string, dsm: seq<QA>, backupName: string, backup: seq<QA>)
    requires |dsm| < 99
    ensures var kb := [Category("dsm", dsmName, dsm), Category("backup", backupName, backup)];
            var r1 := Step(kb, Initial, "старт");
            var r2 := Step(kb, r1.0, "1");
            var r3 := Step(kb, r2.0, "99");
            var r4 := Step(kb, r3.0, "назад");
            && r1 == (Initial, MainMenuReply(kb))
            && r2 == (Session(CategorySelected, Some("dsm"), None), QuestionListReply(kb, "dsm"))
            && r3 == (r2.0, Reply(WrongChoice + QuestionListText(kb[0]), ErrorTag))
            && r4 == (Initial, MainMenuReply(kb))
  {
    var kb := [Category("dsm", dsmName, dsm), Category("backup", backupName, backup)];
    assert "dsm" != "backup";
    assert ResetWords[3] == "старт";
    NumeralIsNoCommand("1");
    NumeralIsNoCommand("99");
    assert NatToDecimal(1) == "1" && NatToDecimal(99) == "99";
    ParseChoiceRoundTrip(1);
    ParseChoiceRoundTrip(99);
    LookupAt(kb, 0);
    var s2 := Session(CategorySelected, Some("dsm"), None);
    CategoryChoice(kb, s2, "99");
    BackElsewhereResets(kb, s2);
  }
}
