/** The bot's three process-wide tables and the handlers that change them:
    `handle_message` (password gate, history update, keyboard buttons and the
    completion call), `handle_reset` (the inline "reset" callback) and
    `handle_photo` (a one-shot image question). The Telegram transport, the
    remote completion service and the file system are parameters: the
    completion's outcome is an argument, what would be sent to the service is
    returned, and the store file is a sequence of lines. */
module Bot {
  import opened Wrappers
  import opened PyStr
  import opened TrustedStore
  import opened Session

  /** The two texts of the persistent reply keyboard. */
  const CHECK_BALANCE: string := "\U{1F4B8} Check balance"
  const MISCHIEF_MANAGED: string := "\U{1F5FA} Mischief managed"

  /** The prompt `handle_photo` uses when the photo has no caption. */
  const DEFAULT_CAPTION: string := "What\U{2019}s in this image?"

  /** What a handler answers the user (the wording itself is not modelled). */
  datatype Response =
    | PasswordPrompt
    | Authorized
    | Balance(report: CostReport)
    | MemoryWiped
    | Reply(text: string)
    | Error(detail: string)
    | PhotoPasswordPrompt
    | PhotoError(detail: string)

  /** `user_input.strip() == AUTH_PASSWORD`, which is never true when the
      password is unset (`None`). */
  predicate Accepts(password: Option<string>, text: string)
  {
    password.Some? && Strip(text) == password.value
  }

  /** The password still matches when the message carries whitespace around it. */
  lemma PaddedPasswordAccepted(pw: string, pre: string, post: string)
    requires Trimmed(pw) && AllSpace(pre) && AllSpace(post)
    ensures Accepts(Some(pw), pre + pw + post)
  {
    StripPadded(pre, pw, post);
  }

  /** A password that begins or ends with whitespace can never be entered,
      since the stripped text never does. */
  lemma UntrimmedPasswordUnreachable(pw: string, text: string)
    requires !Trimmed(pw)
    ensures !Accepts(Some(pw), text)
  {
    StripIsTrimmedSlice(text);
  }

  /** `update.message.caption or "What’s in this image?"`: an absent or empty
      caption is replaced, so the question sent is never empty. */
  function Caption(caption: Option<string>): (c: string)
    ensures caption.Some? && caption.value != [] ==> c == caption.value
    ensures caption.None? || caption.value == [] ==> c == DEFAULT_CAPTION
    ensures c != []
  {
    if caption.Some? && caption.value != [] then caption.value else DEFAULT_CAPTION
  }

  /** The ids a restart reloads from the store: the non-negative ones. */
  function Reloadable(trusted: set<int>): set<int>
  {
    set v | v in trusted && v >= 0
  }

  /** Authorizing `u` (adding it to the set and its line to the file) keeps
      the store in step with the trusted set. */
  lemma StoreFollowsTrusted(store: seq<string>, trusted: set<int>, u: int)
    requires ParseTrusted(store) == Reloadable(trusted)
    ensures ParseTrusted(store + [FormatLine(u)]) == Reloadable(trusted + {u})
  {
    SaveThenLoad(store, u);
    assert Reloadable(trusted + {u}) == Reloadable(trusted) + (if u >= 0 then {u} else {});
  }

  class BotState {
    /** `AUTH_PASSWORD`, possibly unset. */
    const password: Option<string>
    /** `trusted_users`. */
    var trusted: set<int>
    /** `chat_history`: user id to that user's turns, oldest first. */
    var history: map<int, seq<Msg>>
    /** `user_token_usage`; a missing user reads as zero. */
    var usage: map<int, Usage>
    /** The lines of `trusted_users.txt`. */
    var store: seq<string>

    /** A restart would reload exactly the non-negative trusted ids, and no
        history is longer than the window plus the reply appended after it. */
    ghost predicate Valid()
      reads this
    {
      && ParseTrusted(store) == Reloadable(trusted)
      && (forall u | u in history :: |history[u]| <= WINDOW + 1)
    }

    /** Start-up: `trusted_users = load_trusted_users()`, empty tables. */
    constructor (password: Option<string>, file: Option<seq<string>>)
      ensures Valid()
      ensures this.password == password
      ensures trusted == LoadTrusted(file)
      ensures store == (if file.Some? then file.value else [])
      ensures history == map[] && usage == map[]
    {
      this.password := password;
      trusted := LoadTrusted(file);
      store := if file.Some? then file.value else [];
      history := map[];
      usage := map[];
      new;
      ParseTrustedNonNegative(store);
    }

    /** `handle_message` for one text message of user `u`. `sent` is the
        message list passed to the completion service, `None` when it is not
        called; `outcome` is what that call produces. */
    method HandleText(u: int, text: string, outcome: Completion) returns (sent: Option<seq<Msg>>, resp: Response)
      requires Valid()
      modifies this
      ensures Valid()
      // an unauthorized user only ever reaches the password check
      ensures old(u !in trusted) ==>
        && sent == None
        && history == old(history) && usage == old(usage)
        && if Accepts(password, text) then
             && trusted == old(trusted) + {u}
             && store == old(store) + [FormatLine(u)]
             && resp == Authorized
           else
             && trusted == old(trusted) && store == old(store)
             && resp == PasswordPrompt
      // the clauses for a trusted user below are those of `HandleTrustedText`
      ensures old(u in trusted) ==> trusted == old(trusted) && store == old(store)
      // the balance button is recorded as a user turn, and reading the ledger creates a zero entry
      ensures old(u in trusted) && text == CHECK_BALANCE ==>
        && sent == None
        && history == old(history)[u := WithUserTurn(old(HistoryOf(history, u)), text)]
        && usage == old(usage)[u := old(UsageOf(usage, u))]
        && resp == Balance(FormatCost(old(UsageOf(usage, u)).input, old(UsageOf(usage, u)).output))
      ensures old(u in trusted) && text == MISCHIEF_MANAGED ==>
        && sent == None
        && history == old(history)[u := []]
        && usage == old(usage)
        && resp == MemoryWiped
      // any other text goes to the completion service with the trimmed history
      ensures old(u in trusted) && text != CHECK_BALANCE && text != MISCHIEF_MANAGED ==>
        && sent == Some(WithUserTurn(old(HistoryOf(history, u)), text))
        && match outcome
           case Success(reply, p, c) =>
             && history == old(history)[u := Exchange(old(HistoryOf(history, u)), text, reply)]
             && usage == old(usage)[u := AddTokens(old(UsageOf(usage, u)), p, c)]
             && resp == Reply(reply)
           case Failure(e) =>
             && history == old(history)[u := WithUserTurn(old(HistoryOf(history, u)), text)]
             && usage == old(usage)
             && resp == Error(e)
    {
      if u !in trusted {
        sent := None;
        if Accepts(password, text) {
          Authorize(u);
          resp := Authorized;
        } else {
          resp := PasswordPrompt;
        }
      } else {
        sent, resp := HandleTrustedText(u, text, outcome);
      }
    }

    /** The part of `handle_message` after the authorization gate. */
    method HandleTrustedText(u: int, text: string, outcome: Completion) returns (sent: Option<seq<Msg>>, resp: Response)
      requires Valid()
      modifies this
      ensures Valid()
      ensures trusted == old(trusted) && store == old(store)
      ensures text == CHECK_BALANCE ==>
        && sent == None
        && history == old(history)[u := WithUserTurn(old(HistoryOf(history, u)), text)]
        && usage == old(usage)[u := old(UsageOf(usage, u))]
        && resp == Balance(FormatCost(old(UsageOf(usage, u)).input, old(UsageOf(usage, u)).output))
      ensures text == MISCHIEF_MANAGED ==>
        && sent == None
        && history == old(history)[u := []]
        && usage == old(usage)
        && resp == MemoryWiped
      ensures text != CHECK_BALANCE && text != MISCHIEF_MANAGED ==>
        && sent == Some(WithUserTurn(old(HistoryOf(history, u)), text))
        && match outcome
           case Success(reply, p, c) =>
             && history == old(history)[u := Exchange(old(HistoryOf(history, u)), text, reply)]
             && usage == old(usage)[u := AddTokens(old(UsageOf(usage, u)), p, c)]
             && resp == Reply(reply)
           case Failure(e) =>
             && history == old(history)[u := WithUserTurn(old(HistoryOf(history, u)), text)]
             && usage == old(usage)
             && resp == Error(e)
    {
      sent := None;
      PushUserTurn(u, text);

      if text == CHECK_BALANCE {
        var tokens := UsageOf(usage, u);
        usage := usage[u := tokens];
        resp := Balance(FormatCost(tokens.input, tokens.output));
        return;
      }

      if text == MISCHIEF_MANAGED {
        history := history[u := []];
        resp := MemoryWiped;
        return;
      }

      sent := Some(history[u]);
      match outcome
      case Success(reply, p, c) =>
        RecordReply(u, reply, p, c);
        resp := Reply(reply);
      case Failure(e) =>
        resp := Error(e);
    }

    /** `trusted_users.add(user_id)` and `save_trusted_user(user_id)`. */
    method Authorize(u: int)
      requires Valid()
      modifies this
      ensures Valid()
      ensures trusted == old(trusted) + {u} && store == old(store) + [FormatLine(u)]
      ensures history == old(history) && usage == old(usage)
    {
      StoreFollowsTrusted(store, trusted, u);
      trusted := trusted + {u};
      store := store + [FormatLine(u)];
    }

    /** `history.append(...)` of the user turn, then the trim to the window
        stored back into `chat_history[user_id]`. */
    method PushUserTurn(u: int, text: string)
      requires Valid()
      modifies this
      ensures Valid()
      ensures history == old(history)[u := WithUserTurn(old(HistoryOf(history, u)), text)]
      ensures |history[u]| <= WINDOW
      ensures trusted == old(trusted) && store == old(store) && usage == old(usage)
    {
      var h := HistoryOf(history, u);
      h := h + [Msg(User, text)];
      h := Window(h);
      history := history[u := h];
    }

    /** A successful completion: the reply is appended after the trimmed
        history and both counters grow by the reported token counts. */
    method RecordReply(u: int, reply: string, promptTokens: nat, completionTokens: nat)
      requires Valid() && u in history && |history[u]| <= WINDOW
      modifies this
      ensures Valid()
      ensures history == old(history)[u := old(history[u]) + [Msg(Assistant, reply)]]
      ensures usage == old(usage)[u := AddTokens(old(UsageOf(usage, u)), promptTokens, completionTokens)]
      ensures trusted == old(trusted) && store == old(store)
    {
      history := history[u := history[u] + [Msg(Assistant, reply)]];
      usage := usage[u := AddTokens(UsageOf(usage, u), promptTokens, completionTokens)];
    }

    /** `handle_reset`: the inline "reset" callback empties the pressing
        user's history; there is no authorization check. */
    method HandleReset(u: int)
      requires Valid()
      modifies this
      ensures Valid()
      ensures history == old(history)[u := []]
      ensures trusted == old(trusted) && usage == old(usage) && store == old(store)
    {
      history := history[u := []];
    }

    /** `handle_photo`: for an authorized user, one completion call with the
        caption and the image only, outside the conversation history.
        `sent` is the question text of that call. */
    method HandlePhoto(u: int, caption: Option<string>, outcome: Completion) returns (sent: Option<string>, resp: Response)
      requires Valid()
      modifies this
      ensures Valid()
      ensures history == old(history) && trusted == old(trusted) && store == old(store)
      ensures old(u !in trusted) ==>
        && sent == None && usage == old(usage) && resp == PhotoPasswordPrompt
      ensures old(u in trusted) ==>
        && sent == Some(Caption(caption))
        && match outcome
           case Success(reply, p, c) =>
             && usage == old(usage)[u := AddTokens(old(UsageOf(usage, u)), p, c)]
             && resp == Reply(reply)
           case Failure(e) =>
             && usage == old(usage)
             && resp == PhotoError(e)
    {
      var question := Caption(caption);
      if u !in trusted {
        sent := None;
        resp := PhotoPasswordPrompt;
        return;
      }
      sent := Some(question);
      match outcome
      case Success(reply, p, c) =>
        usage := usage[u := AddTokens(UsageOf(usage, u), p, c)];
        resp := Reply(reply);
      case Failure(e) =>
        resp := PhotoError(e);
    }
  }

  /** A wrong password, then the right one with a trailing newline: only
      the right password authorizes, and it is stored so that a restart
      reloads it. */
  method AuthorizationScenario(u: nat, pw: string, wrong: string)
    requires Trimmed(pw) && Strip(wrong) != pw
  {
    var bot := new BotState(Some(pw), None);
    var sent, resp := bot.HandleText(u, wrong, Failure("unused"));
    assert resp == PasswordPrompt && sent == None && u !in bot.trusted;

    PaddedPasswordAccepted(pw, [], "\n");
    assert [] + pw + "\n" == pw + "\n";
    sent, resp := bot.HandleText(u, pw + "\n", Failure("unused"));
    assert resp == Authorized && sent == None;
    assert bot.store == [FormatLine(u)];
    assert u in ParseTrusted(bot.store);
    assert bot.history == map[];
  }

  /** A newly authorized user's first two answered messages: the first
      reaches the service with a one-turn history, and the ledger adds the
      counts of both replies. */
  method LedgerScenario(bot: BotState, u: int, hello: string, more: string)
    requires bot.Valid() && u in bot.trusted
    requires u !in bot.history && u !in bot.usage
    requires hello != CHECK_BALANCE && hello != MISCHIEF_MANAGED
    requires more != CHECK_BALANCE && more != MISCHIEF_MANAGED
    modifies bot
  {
    assert WithUserTurn([], hello) == [Msg(User, hello)] by {
      assert [] + [Msg(User, hello)] == [Msg(User, hello)];
    }
    var sent, resp := bot.HandleText(u, hello, Success("hi", 10, 5));
    assert sent == Some([Msg(User, hello)]);
    assert bot.history[u] == [Msg(User, hello), Msg(Assistant, "hi")];

    sent, resp := bot.HandleText(u, more, Success("ok", 20, 15));
    assert bot.usage[u] == Usage(30, 20);
  }
}
