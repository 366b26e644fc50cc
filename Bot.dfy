/** The mutable side of the bot: `UserSession` objects, updated in place, and
    the map `user_sessions` from user id to session, which `process_question`
    fills lazily.  The map is a field of the bot object here rather than a
    module-level global. */
module Bot {
  import opened Wrappers
  import opened TextNorm
  import opened Decimal
  import opened KnowledgeBase
  import opened Menus
  import opened Engine
  import opened Stats

  /** A user id as the webhook passes it: the form field, or `None` when it
      is missing (which then is a key of the session map like any other). */
  type UserId = Option<string>

  class UserSession {
    const userId: UserId
    var state: State
    var selectedCategory: Option<string>
    var selectedQuestion: Option<nat>

    /** The navigation fields as a value. */
    function Value(): Session
      reads this
    {
      Session(state, selectedCategory, selectedQuestion)
    }

    /** A new session starts in the main menu with nothing selected. */
    constructor (userId: UserId)
      ensures this.userId == userId && Value() == Initial
    {
      this.userId := userId;
      state := MainMenu;
      selectedCategory := None;
      selectedQuestion := None;
    }

    /** Back to the main menu with nothing selected. */
    method Reset()
      modifies this
      ensures Value() == Initial
    {
      state := MainMenu;
      selectedCategory := None;
      selectedQuestion := None;
    }
  }

  class ChatBot {
    const kb: Kb
    var sessions: map<UserId, UserSession>
    /** The session objects of the map. */
    ghost var Repr: set<UserSession>

    /** Every session is stored under its own user id (so distinct users have
        distinct session objects) and satisfies the engine's invariant. */
    ghost predicate Valid()
      reads this, Repr
    {
      && DistinctKeys(kb)
      && (forall u | u in sessions :: sessions[u] in Repr)
      && (forall u | u in sessions :: sessions[u].userId == u && SessionOk(kb, sessions[u].Value()))
    }

    /** A bot over a knowledge base (a dictionary, so its keys are distinct),
        with no sessions yet. */
    constructor (kb: Kb)
      requires DistinctKeys(kb)
      ensures Valid() && this.kb == kb && sessions == map[]
    {
      this.kb := kb;
      sessions := map[];
      Repr := {};
    }

    /** `process_question`: normalise the message, find or create the user's
        session, take one step of the state machine on it in place, and return
        the reply together with the statistics calls made on the way.  Only
        this user's session changes; every other session object and its fields
        are untouched. */
    method ProcessQuestion(question: string, userId: UserId, username: Option<string>)
      returns (reply: Reply, events: seq<StatsEvent>)
      requires Valid()
      modifies this, Repr
      ensures Valid() && old(Repr) <= Repr
      ensures sessions.Keys == old(sessions).Keys + {userId}
      ensures var before := if userId in old(sessions) then old(sessions[userId].Value()) else Initial;
              (sessions[userId].Value(), reply) == Step(kb, before, NormalizeText(question))
      ensures forall u | u in old(sessions) && u != userId ::
                sessions[u] == old(sessions[u]) && sessions[u].Value() == old(sessions[u].Value())
      ensures userId in old(sessions) ==> sessions[userId] == old(sessions[userId])
      ensures userId !in old(sessions) ==> fresh(sessions[userId])
      ensures events == StatsEvents(userId, username, question, reply)
    {
      var normalized := NormalizeText(question);
      reply := Handle(userId, normalized);
      events := StatsEvents(userId, username, question, reply);
    }

    /** One already normalised message from `userId`: its session, created if
        need be, takes one step; no other session changes.  It is the part of
        `process_question` after the normalisation, kept apart so that the
        proof about the session map does not carry the facts about
        `NormalizeText`. */
    method Handle(userId: UserId, input: string) returns (reply: Reply)
      requires Valid()
      modifies this, Repr
      ensures Valid() && old(Repr) <= Repr
      ensures sessions.Keys == old(sessions).Keys + {userId}
      ensures var before := if userId in old(sessions) then old(sessions[userId].Value()) else Initial;
              (sessions[userId].Value(), reply) == Step(kb, before, input)
      ensures forall u | u in old(sessions) && u != userId ::
                sessions[u] == old(sessions[u]) && sessions[u].Value() == old(sessions[u].Value())
      ensures userId in old(sessions) ==> sessions[userId] == old(sessions[userId])
      ensures userId !in old(sessions) ==> fresh(sessions[userId])
    {
      var session := SessionFor(userId);
      label found:
      reply := Respond(session, input);
      forall u | u in old(sessions) && u != userId
        ensures sessions[u] == old(sessions[u]) && sessions[u].Value() == old(sessions[u].Value())
      {
        var other := sessions[u];
        assert other.userId == u && other != session;
        assert other.Value() == old@found(other.Value()) == old(other.Value());
      }
    }

    /** The lookup `user_sessions[user_id]`, creating the session first when
        the user has none. */
    method SessionFor(userId: UserId) returns (session: UserSession)
      requires Valid()
      modifies this
      ensures Valid() && Repr == old(Repr) + {session}
      ensures sessions == old(sessions)[userId := session] && session.userId == userId
      ensures userId in old(sessions) ==> session == old(sessions)[userId]
      ensures userId !in old(sessions) ==> fresh(session) && session.Value() == Initial
    {
      if userId !in sessions {
        var created := new UserSession(userId);
        sessions := sessions[userId := created];
        Repr := Repr + {created};
      }
      session := sessions[userId];
    }

    /** The state-machine part of `process_question` on one session. */
    method Respond(session: UserSession, input: string) returns (reply: Reply)
      requires DistinctKeys(kb) && SessionOk(kb, session.Value())
      modifies session
      ensures (session.Value(), reply) == Step(kb, old(session.Value()), input)
    {
      if input in ResetWords {
        session.Reset();
        var menu := GetMainMenu(kb);
        reply := Reply(menu, MainMenuTag);
      } else if input == BackWord {
        if session.state == QuestionSelected {
          session.state := CategorySelected;
          var list := GetCategoryQuestions(kb, session.selectedCategory.value);
          reply := Reply(list, CategoryTag(session.selectedCategory.value));
        } else if session.state == CategorySelected {
          session.Reset();
          var menu := GetMainMenu(kb);
          reply := Reply(menu, MainMenuTag);
        } else {
          session.Reset();
          var menu := GetMainMenu(kb);
          reply := Reply(menu, MainMenuTag);
        }
      } else if session.state == MainMenu {
        reply := ChooseCategory(session, input);
      } else if session.state == CategorySelected {
        reply := ChooseQuestion(session, input);
      } else {
        var key := session.selectedCategory.value;
        var answer := GetQuestionAnswer(kb, key, session.selectedQuestion.value);
        reply := Reply(UnknownCommand + answer, CategoryTag(key));
      }
    }

    /** A message in the main menu that is not a command: a category number. */
    method ChooseCategory(session: UserSession, input: string) returns (reply: Reply)
      requires DistinctKeys(kb) && SessionOk(kb, session.Value()) && session.state == MainMenu
      requires input !in ResetWords && input != BackWord
      modifies session
      ensures (session.Value(), reply) == Step(kb, old(session.Value()), input)
    {
      ghost var before := session.Value();
      var choice := ParseChoice(input);
      if choice.Number? {
        if 1 <= choice.value <= |kb| {
          assert Step(kb, before, input)
            == (before.(state := CategorySelected, category := Some(kb[choice.value - 1].key)),
                QuestionListReply(kb, kb[choice.value - 1].key));
          session.selectedCategory := Some(kb[choice.value - 1].key);
          session.state := CategorySelected;
          LookupAt(kb, choice.value - 1);
          var list := GetCategoryQuestions(kb, session.selectedCategory.value);
          reply := Reply(list, CategoryTag(session.selectedCategory.value));
        } else {
          var menu := GetMainMenu(kb);
          reply := Reply(WrongChoice + menu, ErrorTag);
        }
      } else {
        var menu := GetMainMenu(kb);
        reply := Reply(EnterCategoryNumber + menu, ErrorTag);
      }
    }

    /** A message in a question list that is not a command: a question number. */
    method ChooseQuestion(session: UserSession, input: string) returns (reply: Reply)
      requires DistinctKeys(kb) && SessionOk(kb, session.Value()) && session.state == CategorySelected
      requires input !in ResetWords && input != BackWord
      modifies session
      ensures (session.Value(), reply) == Step(kb, old(session.Value()), input)
    {
      var key := session.selectedCategory.value;
      var questions := Lookup(kb, key).questions;
      var choice := ParseChoice(input);
      if choice.Number? {
        if 1 <= choice.value <= |questions| {
          session.selectedQuestion := Some(choice.value - 1);
          session.state := QuestionSelected;
          var text := GetQuestionAnswer(kb, key, session.selectedQuestion.value);
          reply := Reply(text, CategoryTag(key));
        } else {
          var list := GetCategoryQuestions(kb, key);
          reply := Reply(WrongChoice + list, ErrorTag);
        }
      } else {
        var list := GetCategoryQuestions(kb, key);
        reply := Reply(EnterQuestionNumber(|questions|) + list, ErrorTag);
      }
    }
  }
}
