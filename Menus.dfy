/** The three views the bot renders: the main menu (categories), a category's
    question list and the answer to one question.  Lists are numbered from 1 in
    knowledge-base order. */
module Menus {
  import opened Decimal
  import opened KnowledgeBase
  import opened Seqs

  /** The command that goes back one level. */
  const BackWord: string := "назад"

  /** The commands that return to the main menu from anywhere. */
  const ResetWords: seq<string> := ["меню", "menu", "начать", "старт", "start"]

  const MainMarker: string := "\U{1F5A5}\U{FE0F}"
  const QuestionMarker: string := "\U{2753}"

  const MainHeader: string :=
    "\U{1F44B} **Добро пожаловать в ИнструкторБот!** \U{1F916}\n\n**Выберите категорию, введя цифру:**\n\n"

  /** The range printed here is fixed at 1 to 5, whatever the number of
      categories. */
  const MainFooter: string := "\n**Введите цифру от 1 до 5 для выбора категории**"

  const QuestionLabel: string := "\U{1F3AF} **Вопрос:** "
  const AnswerLabel: string := "\n\n\U{1F4DD} **Ответ:** "
  const AnswerFooter: string :=
    "\n\n\U{1F4A1} *Для возврата к вопросам категории введите '" + BackWord + "'*\n"
    + "\U{1F4CB} *Для возврата к категориям введите '" + ResetWords[0] + "'*"

  /** Line `n` of a numbered list: `f"{n}. {marker} **{item}**\n"`. */
  function NumberedLine(n: nat, marker: string, item: string): string
  {
    NatToDecimal(n) + ". " + marker + " **" + item + "**\n"
  }

  /** The lines of `items`, numbered 1, 2, ... in order. */
  function NumberedList(items: seq<string>, marker: string): string
  {
    if items == [] then ""
    else NumberedList(items[..|items| - 1], marker) + NumberedLine(|items|, marker, items[|items| - 1])
  }

  /** The list of the first `n` items is the beginning of the whole list. */
  lemma {:induction false} NumberedListPrefix(items: seq<string>, marker: string, n: nat)
    requires n <= |items|
    ensures NumberedList(items[..n], marker) <= NumberedList(items, marker)
  {
    if n < |items| {
      var init := items[..|items| - 1];
      assert init[..n] == items[..n];
      NumberedListPrefix(init, marker, n);
    } else {
      assert items[..n] == items;
    }
  }

  /** Item `k` (0-based) appears as the line numbered `k + 1`, right after
      the lines of the items before it. */
  lemma NumberedListShows(items: seq<string>, marker: string, k: nat)
    requires k < |items|
    ensures NumberedList(items[..k], marker) + NumberedLine(k + 1, marker, items[k])
            <= NumberedList(items, marker)
  {
    assert items[..k + 1][..k] == items[..k];
    NumberedListPrefix(items, marker, k + 1);
  }

  /** Appending item `i` to the list of the items before it. */
  lemma NumberedListSnoc(items: seq<string>, marker: string, i: nat)
    requires i < |items|
    ensures NumberedList(items[..i + 1], marker) == NumberedList(items[..i], marker) + NumberedLine(i + 1, marker, items[i])
  {
    assert items[..i + 1][..i] == items[..i];
  }

  function CategoryNames(kb: Kb): (names: seq<string>)
    ensures |names| == |kb|
  {
    seq(|kb|, i requires 0 <= i < |kb| => kb[i].name)
  }

  function QuestionTexts(c: Category): (texts: seq<string>)
    ensures |texts| == |c.questions|
  {
    seq(|c.questions|, i requires 0 <= i < |c.questions| => c.questions[i].question)
  }

  /** The main menu, `SynologyChatBot.get_main_menu()`. */
  function MainMenuText(kb: Kb): string
  {
    MainHeader + NumberedList(CategoryNames(kb), MainMarker) + MainFooter
  }

  function QuestionListHeader(c: Category): string
  {
    "\U{1F4CB} **Категория: " + c.name + "**\n\n**Выберите вопрос, введя цифру:**\n\n"
  }

  /** The footer is appended in two parts: the range line, then the hint to
      go back. */
  function QuestionListFooter(c: Category): string
  {
    QuestionCountLine(c) + QuestionBackLine
  }

  function QuestionCountLine(c: Category): string
  {
    "\n**Введите цифру от 1 до " + NatToDecimal(|c.questions|) + " для выбора вопроса**\n"
  }

  const QuestionBackLine: string := "\U{1F4DD} Или введите '" + BackWord + "' для возврата к категориям"

  /** A category's question list, `SynologyChatBot.get_category_questions`. */
  function QuestionListText(c: Category): string
  {
    QuestionListHeader(c) + NumberedList(QuestionTexts(c), QuestionMarker) + QuestionListFooter(c)
  }

  /** Category `k` is listed in the main menu under the number `k + 1`. */
  lemma MainMenuShowsCategory(kb: Kb, k: nat)
    requires k < |kb|
    ensures MainHeader + NumberedList(CategoryNames(kb)[..k], MainMarker)
              + NumberedLine(k + 1, MainMarker, kb[k].name)
            <= MainMenuText(kb)
  {
    var names := CategoryNames(kb);
    NumberedListShows(names, MainMarker, k);
    AppendAssoc(MainHeader, NumberedList(names[..k], MainMarker), NumberedLine(k + 1, MainMarker, kb[k].name));
    PrefixInside(MainHeader, NumberedList(names[..k], MainMarker) + NumberedLine(k + 1, MainMarker, kb[k].name),
                 NumberedList(names, MainMarker), MainFooter);
  }

  /** Question `j` is listed in its category's list under the number `j + 1`;
      right after the list, the footer states the range 1 to the number of
      questions, and that number reads back as the choice of the last one. */
  lemma QuestionListShowsQuestion(c: Category, j: nat)
    requires j < |c.questions|
    ensures QuestionListHeader(c) + NumberedList(QuestionTexts(c)[..j], QuestionMarker)
              + NumberedLine(j + 1, QuestionMarker, c.questions[j].question)
            <= QuestionListText(c)
    ensures QuestionListHeader(c) + NumberedList(QuestionTexts(c), QuestionMarker)
              + "\n**Введите цифру от 1 до " + NatToDecimal(|c.questions|) + " для выбора вопроса**\n"
            <= QuestionListText(c)
    ensures ParseChoice(NatToDecimal(|c.questions|)) == Number(|c.questions|)
  {
    var texts := QuestionTexts(c);
    var line := NumberedLine(j + 1, QuestionMarker, c.questions[j].question);
    NumberedListShows(texts, QuestionMarker, j);
    AppendAssoc(QuestionListHeader(c), NumberedList(texts[..j], QuestionMarker), line);
    PrefixInside(QuestionListHeader(c), NumberedList(texts[..j], QuestionMarker) + line,
                 NumberedList(texts, QuestionMarker), QuestionListFooter(c));
    FooterStatesCount(c);
    ParseChoiceRoundTrip(|c.questions|);
  }

  lemma FooterStatesCount(c: Category)
    ensures QuestionListHeader(c) + NumberedList(QuestionTexts(c), QuestionMarker)
              + "\n**Введите цифру от 1 до " + NatToDecimal(|c.questions|) + " для выбора вопроса**\n"
            <= QuestionListText(c)
  {
    var front := QuestionListHeader(c) + NumberedList(QuestionTexts(c), QuestionMarker);
    AppendAssoc(front, QuestionCountLine(c), QuestionBackLine);
    PrefixOfAppend(front + QuestionCountLine(c), QuestionBackLine);
  }

  /** `get_main_menu`: the text is built by appending one line per category. */
  method GetMainMenu(kb: Kb) returns (text: string)
    ensures text == MainMenuText(kb)
  {
    var names := CategoryNames(kb);
    text := MainHeader;
    for i := 0 to |kb|
      invariant text == MainHeader + NumberedList(names[..i], MainMarker)
    {
      NumberedListSnoc(names, MainMarker, i);
      AppendAssoc(MainHeader, NumberedList(names[..i], MainMarker), NumberedLine(i + 1, MainMarker, names[i]));
      text := text + NumberedLine(i + 1, MainMarker, kb[i].name);
    }
    assert names[..|kb|] == names;
    text := text + MainFooter;
  }

  /** `get_category_questions`: `key` must be a key of the knowledge base. */
  method GetCategoryQuestions(kb: Kb, key: string) returns (text: string)
    requires HasKey(kb, key)
    ensures text == QuestionListText(Lookup(kb, key))
  {
    var category := Lookup(kb, key);
    var questions := category.questions;
    var texts := QuestionTexts(category);
    var header := QuestionListHeader(category);
    text := header;
    for i := 0 to |questions|
      invariant text == header + NumberedList(texts[..i], QuestionMarker)
    {
      NumberedListSnoc(texts, QuestionMarker, i);
      AppendAssoc(header, NumberedList(texts[..i], QuestionMarker), NumberedLine(i + 1, QuestionMarker, texts[i]));
      text := text + NumberedLine(i + 1, QuestionMarker, questions[i].question);
    }
    assert texts[..|questions|] == texts;
    AppendAssoc(text, QuestionCountLine(category), QuestionBackLine);
    text := text + QuestionCountLine(category);
    text := text + QuestionBackLine;
  }

  /** `get_question_answer`: the question, then its answer, then the
      reminders of the back and menu commands. */
  function GetQuestionAnswer(kb: Kb, key: string, index: nat): (r: string)
    requires HasKey(kb, key) && index < |Lookup(kb, key).questions|
    ensures var qa := Lookup(kb, key).questions[index];
            QuestionLabel + qa.question + AnswerLabel + qa.answer <= r
    ensures |AnswerFooter| <= |r| && r[|r| - |AnswerFooter|..] == AnswerFooter
  {
    var qa := Lookup(kb, key).questions[index];
    QuestionLabel + qa.question + AnswerLabel + qa.answer + AnswerFooter
  }
}
