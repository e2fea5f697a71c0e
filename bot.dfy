/**
 * The step-by-step dialogue of bot.py: `/search` starts a three-state form that stores
 * the origin, the destination and the date in the user's scratch dictionary `user_data`,
 * runs the ticket search on the last answer, and clears the dictionary; `/cancel`
 * clears it from any state.
 *
 * The Telegram framework is modelled by its routing (`ConversationHandler` with one
 * entry point, one text handler per state and one fallback) and by the list of replies
 * sent; the provider's answer to the search is a parameter.
 */
module Bot {
  import opened Wrappers
  import opened Scraper

  /** `ORIGIN, DESTINATION, START_DATE = range(3)`. */
  const Origin: int := 0
  const Destination: int := 1
  const StartDate: int := 2
  /** `ConversationHandler.END`: the user is not in the dialogue. */
  const End: int := -1

  /** The keys the handlers write into `user_data`. */
  const OriginKey: string := "origin"
  const DestinationKey: string := "destination"
  const StartDateKey: string := "start_date"

  const SearchPrompt: string := "جستجوی جدید شروع شد. لطفاً نام شهر مبدا را وارد کنید:"
  const DestinationPrompt: string := "عالی! حالا نام شهر مقصد را وارد کنید:"
  const DatePrompt: string := "متشکرم. حالا تاریخ مورد نظر را وارد کنید (مثال: ۲۸ شهریور):"
  const SearchingNotice: string := "در حال جستجو... لطفاً چند لحظه صبر کنید 🔎"
  const CancelNotice: string := "عملیات لغو شد. برای شروع مجدد /search را بزنید."

  /** An incoming message: a bot command such as /search, or plain text that is not a command. */
  datatype Update = Command(name: string) | Text(text: string)

  /** The handlers registered with the `ConversationHandler`. */
  datatype Handler = SearchStart | OriginReceived | DestinationReceived | StartDateReceived | Cancel

  /** The text handler registered for a state in the `states` table. */
  function StateHandler(state: int): Option<Handler> {
    if state == Origin then Some(OriginReceived)
    else if state == Destination then Some(DestinationReceived)
    else if state == StartDate then Some(StartDateReceived)
    else None
  }

  /**
   * The handler the `ConversationHandler` picks: outside the dialogue only the `/search`
   * entry point; inside it the state's text handler for text and the `/cancel` fallback
   * for that command. Anything else is not handled by the dialogue.
   */
  function Route(state: int, u: Update): Option<Handler> {
    if state == End then (if u == Command("search") then Some(SearchStart) else None)
    else match u
      case Text(_) => StateHandler(state)
      case Command(name) => if name == "cancel" then Some(Cancel) else None
  }

  /** One user's dialogue: its current state, its `user_data`, and the replies sent so far. */
  datatype Session = Session(state: int, userData: map<string, string>, replies: seq<string>)

  /**
   * What holds between updates: outside the dialogue and before the first answer
   * `user_data` is empty, and further on it holds exactly the answers given so far.
   */
  predicate Consistent(s: Session) {
    || (s.state == End && s.userData == map[])
    || (s.state == Origin && s.userData == map[])
    || (s.state == Destination && s.userData.Keys == {OriginKey})
    || (s.state == StartDate && s.userData.Keys == {OriginKey, DestinationKey})
  }

  /** Running handler `h` on message text `text`; the handler's return value becomes the state. */
  function Dispatch(h: Handler, s: Session, text: string, response: Response): Session
    requires h == StartDateReceived ==> OriginKey in s.userData && DestinationKey in s.userData
  {
    match h
    case SearchStart => Session(Origin, s.userData, s.replies + [SearchPrompt])
    case OriginReceived => Session(Destination, s.userData[OriginKey := text], s.replies + [DestinationPrompt])
    case DestinationReceived => Session(StartDate, s.userData[DestinationKey := text], s.replies + [DatePrompt])
    case StartDateReceived =>
      var data := s.userData[StartDateKey := text];
      Session(End, map[], s.replies + [SearchingNotice, Reply(data[OriginKey], data[DestinationKey], data[StartDateKey], response)])
    case Cancel => Session(End, map[], s.replies + [CancelNotice])
  }

  /** The session after one update; `response` is what the provider answers if a search is run. */
  function Next(s: Session, u: Update, response: Response): Session
    requires Consistent(s)
  {
    match Route(s.state, u)
    case None => s
    case Some(h) => Dispatch(h, s, if u.Text? then u.text else "", response)
  }

  /** One update together with the provider's answer, should that update run a search. */
  datatype Event = Event(update: Update, response: Response)

  /** The session after a sequence of events. */
  function Run(s: Session, events: seq<Event>): (r: Session)
    requires Consistent(s)
    ensures Consistent(r)
    decreases |events|
  {
    if events == [] then s
    else
      NextKeepsConsistent(s, events[0].update, events[0].response);
      Run(Next(s, events[0].update, events[0].response), events[1..])
  }

  // ---------------------------------------------------------------- properties

  /** The state constants are 0, 1 and 2, distinct, and distinct from END. */
  lemma StatesDistinct()
    ensures Origin == 0 && Destination == 1 && StartDate == 2
    ensures End !in {Origin, Destination, StartDate}
  {
  }

  /** Each of the three states has exactly one text handler, a different one for each state, and no other state has one. */
  lemma OneTextHandlerPerState(state: int)
    ensures StateHandler(state).Some? <==> state in {Origin, Destination, StartDate}
    ensures StateHandler(Origin) == Some(OriginReceived)
    ensures StateHandler(Destination) == Some(DestinationReceived)
    ensures StateHandler(StartDate) == Some(StartDateReceived)
  {
  }

  /**
   * The routing table: `/search` is handled only outside the dialogue, `/cancel` and text
   * only inside it, and every other update is ignored; the dialogue is not re-entered.
   */
  lemma RouteCases(state: int, u: Update)
    ensures Route(state, u) == Some(SearchStart) <==> state == End && u == Command("search")
    ensures Route(state, u) == Some(Cancel) <==> state != End && u == Command("cancel")
    ensures state != End && u.Text? ==> Route(state, u) == StateHandler(state)
    ensures Route(state, u).None? <==>
      || (state == End && u != Command("search"))
      || (state != End && u.Command? && u.name != "cancel")
      || (state != End && u.Text? && StateHandler(state).None?)
  {
  }

  /**
   * What each handler does to the session: the state it returns, the replies it appends
   * (one, or two for the search), and `user_data` extended by one answer or cleared.
   */
  lemma DispatchOutcome(h: Handler, s: Session, text: string, response: Response)
    requires h == StartDateReceived ==> OriginKey in s.userData && DestinationKey in s.userData
    ensures var r := Dispatch(h, s, text, response);
      && r.state == (match h
                     case SearchStart => Origin
                     case OriginReceived => Destination
                     case DestinationReceived => StartDate
                     case StartDateReceived => End
                     case Cancel => End)
      && |r.replies| == |s.replies| + (if h == StartDateReceived then 2 else 1)
      && r.replies[..|s.replies|] == s.replies
      && (h == SearchStart ==> r.userData == s.userData)
      && (h == OriginReceived ==> r.userData.Keys == s.userData.Keys + {OriginKey} && r.userData[OriginKey] == text)
      && (h == DestinationReceived ==> r.userData.Keys == s.userData.Keys + {DestinationKey} && r.userData[DestinationKey] == text)
      && (h == OriginReceived ==>
            forall k :: k in s.userData && k != OriginKey ==> k in r.userData && r.userData[k] == s.userData[k])
      && (h == DestinationReceived ==>
            forall k :: k in s.userData && k != DestinationKey ==> k in r.userData && r.userData[k] == s.userData[k])
      && (h in {StartDateReceived, Cancel} ==> r.userData == map[])
  {
  }

  /** Every update keeps the session consistent. */
  lemma NextKeepsConsistent(s: Session, u: Update, response: Response)
    requires Consistent(s)
    ensures Consistent(Next(s, u, response))
  {
    match Route(s.state, u)
    case None =>
    case Some(h) =>
      var t := if u.Text? then u.text else "";
      if h == OriginReceived {
        assert s.userData[OriginKey := t].Keys == {OriginKey};
      } else if h == DestinationReceived {
        assert s.userData[DestinationKey := t].Keys == {OriginKey, DestinationKey};
      }
  }

  /** `/search` outside the dialogue enters ORIGIN with an empty `user_data`. */
  lemma SearchEntersOrigin(s: Session, response: Response)
    requires Consistent(s) && s.state == End
    ensures Next(s, Command("search"), response) == Session(Origin, map[], s.replies + [SearchPrompt])
  {
  }

  /** The origin answer is stored under "origin" and the dialogue moves to DESTINATION. */
  lemma OriginStored(s: Session, text: string, response: Response)
    requires Consistent(s) && s.state == Origin
    ensures Next(s, Text(text), response) == Session(Destination, map[OriginKey := text], s.replies + [DestinationPrompt])
  {
  }

  /** The destination answer is stored under "destination", the origin is kept, and the dialogue moves to START_DATE. */
  lemma DestinationStored(s: Session, text: string, response: Response)
    requires Consistent(s) && s.state == Destination
    ensures Next(s, Text(text), response)
         == Session(StartDate, map[OriginKey := s.userData[OriginKey], DestinationKey := text], s.replies + [DatePrompt])
  {
    assert s.userData == map[OriginKey := s.userData[OriginKey]];
  }

  /**
   * The date answer runs the search on exactly the stored origin, the stored destination
   * and this answer, sends its result, clears `user_data` and ends the dialogue.
   */
  lemma StartDateSearches(s: Session, text: string, response: Response)
    requires Consistent(s) && s.state == StartDate
    ensures Next(s, Text(text), response)
         == Session(End, map[], s.replies + [SearchingNotice, Reply(s.userData[OriginKey], s.userData[DestinationKey], text, response)])
  {
  }

  /** `/cancel` is accepted in every state of the dialogue, clears `user_data` and ends it. */
  lemma CancelFromAnyState(s: Session, response: Response)
    requires Consistent(s) && s.state != End
    ensures Next(s, Command("cancel"), response) == Session(End, map[], s.replies + [CancelNotice])
  {
  }

  /** Whenever the dialogue is over, `user_data` is empty. */
  lemma EndedMeansCleared(s: Session, events: seq<Event>)
    requires Consistent(s)
    ensures Run(s, events).state == End ==> Run(s, events).userData == map[]
  {
  }

  /** Running events one after another is running their concatenation. */
  lemma {:induction false} RunAppend(s: Session, first: seq<Event>, rest: seq<Event>)
    requires Consistent(s)
    ensures Run(s, first + rest) == Run(Run(s, first), rest)
    decreases |first|
  {
    if first == [] {
      assert first + rest == rest;
    } else {
      assert (first + rest)[0] == first[0];
      assert (first + rest)[1..] == first[1..] + rest;
      NextKeepsConsistent(s, first[0].update, first[0].response);
      RunAppend(Next(s, first[0].update, first[0].response), first[1..], rest);
    }
  }

  /**
   * A whole dialogue from outside it: `/search`, origin, destination, date. The search
   * is run on the three answers, its result is the last reply, and `user_data` ends empty.
   */
  lemma FullDialogue(s: Session, origin: string, destination: string, date: string, response: Response)
    requires Consistent(s) && s.state == End
    ensures Run(s, [Event(Command("search"), response), Event(Text(origin), response),
                    Event(Text(destination), response), Event(Text(date), response)])
         == Session(End, map[], s.replies + [SearchPrompt, DestinationPrompt, DatePrompt, SearchingNotice,
                                             Reply(origin, destination, date, response)])
  {
    var e := [Event(Command("search"), response), Event(Text(origin), response),
              Event(Text(destination), response), Event(Text(date), response)];
    var s1 := Next(s, e[0].update, response);
    var s2 := Next(s1, e[1].update, response);
    var s3 := Next(s2, e[2].update, response);
    assert s3.userData == map[OriginKey := origin, DestinationKey := destination];
    var s4 := Next(s3, e[3].update, response);
    assert Run(s, e) == Run(s1, e[1..]);
    assert Run(s1, e[1..]) == Run(s2, e[2..]);
    assert Run(s2, e[2..]) == Run(s3, e[3..]);
    assert Run(s3, e[3..]) == Run(s4, []);
  }

  /**
   * Cancelling while the destination is awaited and searching again starts a clean
   * ORIGIN state: nothing of the cancelled dialogue is left in `user_data`.
   */
  lemma CancelThenSearchIsFresh(s: Session, r1: Response, r2: Response)
    requires Consistent(s) && s.state == Destination
    ensures Run(s, [Event(Command("cancel"), r1), Event(Command("search"), r2)])
         == Session(Origin, map[], s.replies + [CancelNotice, SearchPrompt])
  {
    var e := [Event(Command("cancel"), r1), Event(Command("search"), r2)];
    var s1 := Next(s, e[0].update, r1);
    assert Run(s, e) == Run(s1, e[1..]);
    assert Run(s1, e[1..]) == Run(Next(s1, e[1].update, r2), []);
  }

  // ---------------------------------------------------------------- the imperative model

  /**
   * The `ConversationHandler`'s state for one user together with that user's `context.user_data`.
   *
   * The five handler methods are the callbacks of bot.py: each updates `user_data` and the
   * replies and returns the next state, but leaves `state` alone, because the framework
   * stores the returned state itself. They are therefore not stand-alone operations that
   * keep `Valid()`; `Handle` is, since it routes the update, runs the handler and stores
   * the state it returns.
   */
  class Conversation {
    var state: int
    var userData: map<string, string>
    var replies: seq<string>

    function Snapshot(): Session
      reads this
    {
      Session(state, userData, replies)
    }

    predicate Valid()
      reads this
    {
      Consistent(Snapshot())
    }

    constructor ()
      ensures Valid() && Snapshot() == Session(End, map[], [])
    {
      state, userData, replies := End, map[], [];
    }

    /** search_start */
    method SearchStart() returns (next: int)
      modifies this
      ensures next == Origin
      ensures state == old(state) && userData == old(userData) && replies == old(replies) + [SearchPrompt]
    {
      replies := replies + [SearchPrompt];
      next := Origin;
    }

    /** origin_received */
    method OriginReceived(text: string) returns (next: int)
      modifies this
      ensures next == Destination
      ensures state == old(state) && userData == old(userData)[OriginKey := text]
      ensures replies == old(replies) + [DestinationPrompt]
    {
      userData := userData[OriginKey := text];
      replies := replies + [DestinationPrompt];
      next := Destination;
    }

    /** destination_received */
    method DestinationReceived(text: string) returns (next: int)
      modifies this
      ensures next == StartDate
      ensures state == old(state) && userData == old(userData)[DestinationKey := text]
      ensures replies == old(replies) + [DatePrompt]
    {
      userData := userData[DestinationKey := text];
      replies := replies + [DatePrompt];
      next := StartDate;
    }

    /** start_date_received; the two reads of `user_data` fail with KeyError unless both answers are stored. */
    method StartDateReceived(text: string, response: Response) returns (next: int)
      requires OriginKey in userData && DestinationKey in userData
      modifies this
      ensures next == End
      ensures state == old(state) && userData == map[]
      ensures replies == old(replies)
        + [SearchingNotice, Reply(old(userData)[OriginKey], old(userData)[DestinationKey], text, response)]
    {
      userData := userData[StartDateKey := text];
      var origin := userData[OriginKey];
      var destination := userData[DestinationKey];
      var startDate := userData[StartDateKey];
      replies := replies + [SearchingNotice];
      var results := FindTickets(origin, destination, startDate, response);
      replies := replies + [results];
      userData := map[];
      next := End;
    }

    /** cancel */
    method Cancel() returns (next: int)
      modifies this
      ensures next == End
      ensures state == old(state) && userData == map[] && replies == old(replies) + [CancelNotice]
    {
      replies := replies + [CancelNotice];
      userData := map[];
      next := End;
    }

    /** The `ConversationHandler` receiving one update: route it, run the handler, store the state it returns. */
    method Handle(u: Update, response: Response)
      requires Valid()
      modifies this
      ensures Valid()
      ensures Snapshot() == Next(old(Snapshot()), u, response)
    {
      NextKeepsConsistent(Snapshot(), u, response);
      var handler := Route(state, u);
      if handler.None? {
        return;
      }
      var text := if u.Text? then u.text else "";
      var next: int;
      match handler.value {
        case SearchStart => next := SearchStart();
        case OriginReceived => next := OriginReceived(text);
        case DestinationReceived => next := DestinationReceived(text);
        case StartDateReceived => next := StartDateReceived(text, response);
        case Cancel => next := Cancel();
      }
      state := next;
    }
  }
}
