/** The values the bot's per-user tables hold: role-tagged turns, the history
    window trimmed to the last `2 * MAX_EXCHANGES` entries, the token ledger
    with its zero default, and the cost report `format_cost` renders. */
module Session {

  const MAX_EXCHANGES: nat := 10

  /** `history[-MAX_EXCHANGES * 2:]` keeps this many entries. */
  const WINDOW: nat := 2 * MAX_EXCHANGES

  datatype Role = User | Assistant

  /** One `{"role": ..., "content": ...}` entry of a user's history. */
  datatype Msg = Msg(role: Role, content: string)

  /** One user's `{"input": ..., "output": ...}` token counters. */
  datatype Usage = Usage(input: nat, output: nat)

  /** What the remote completion call produced: a reply with its token
      counts, or an exception (whose text the bot shows the user). */
  datatype Completion =
    | Success(reply: string, promptTokens: nat, completionTokens: nat)
    | Failure(error: string)

  /** The last `n` entries of `s`, Python's `s[-n:]` for `n > 0`. */
  function LastN<T>(s: seq<T>, n: nat): seq<T>
  {
    if |s| <= n then s else s[|s| - n..]
  }

  /** The history trim `history[-MAX_EXCHANGES * 2:]`. */
  function Window(h: seq<Msg>): seq<Msg>
  {
    LastN(h, WINDOW)
  }

  /** A user's history after their text is appended and the window trimmed. */
  function WithUserTurn(h: seq<Msg>, text: string): seq<Msg>
  {
    Window(h + [Msg(User, text)])
  }

  /** The window keeps the newest `min(|h| + 1, WINDOW)` entries of the
      extended history, in their original order, ending with the new turn. */
  lemma WithUserTurnKeepsNewest(h: seq<Msg>, text: string)
    ensures var r := WithUserTurn(h, text);
      && |r| == (if |h| + 1 <= WINDOW then |h| + 1 else WINDOW)
      && r == (h + [Msg(User, text)])[|h| + 1 - |r|..]
      && r[|r| - 1] == Msg(User, text)
  {
  }

  /** `chat_history.setdefault(user_id, [])`: no entry reads as empty. */
  function HistoryOf(history: map<int, seq<Msg>>, u: int): seq<Msg>
  {
    if u in history then history[u] else []
  }

  /** `user_token_usage[user_id]` on a `defaultdict`: no entry reads as zero. */
  function UsageOf(usage: map<int, Usage>, u: int): Usage
  {
    if u in usage then usage[u] else Usage(0, 0)
  }

  /** The two `+=` on a user's counters after a completion. */
  function AddTokens(t: Usage, promptTokens: nat, completionTokens: nat): Usage
  {
    Usage(t.input + promptTokens, t.output + completionTokens)
  }

  /** Recording two completions is recording their summed counts. */
  lemma AddTokensAccumulates(t: Usage, p1: nat, c1: nat, p2: nat, c2: nat)
    ensures AddTokens(AddTokens(t, p1, c1), p2, c2) == AddTokens(t, p1 + p2, c1 + c2)
  {
  }

  /** The integer content of `format_cost`'s message: the token total, both
      counts, and the estimated cost in millionths of a dollar at $0.005 per
      thousand input tokens and $0.015 per thousand output tokens. */
  datatype CostReport = CostReport(total: nat, tokensIn: nat, tokensOut: nat, microDollars: nat)

  function FormatCost(tokensIn: nat, tokensOut: nat): CostReport
  {
    CostReport(tokensIn + tokensOut, tokensIn, tokensOut, 5 * tokensIn + 15 * tokensOut)
  }

  /** The cost estimate of a sum of ledger entries is the sum of their
      estimates, and it grows with either count. */
  lemma FormatCostAdditive(in1: nat, out1: nat, in2: nat, out2: nat)
    ensures FormatCost(in1 + in2, out1 + out2).microDollars ==
      FormatCost(in1, out1).microDollars + FormatCost(in2, out2).microDollars
    ensures in1 <= in2 && out1 <= out2 ==>
      FormatCost(in1, out1).microDollars <= FormatCost(in2, out2).microDollars
  {
  }

  /** A thousand tokens each way come to 20000 millionths, "$0.0200". */
  lemma FormatCostExample()
    ensures FormatCost(1000, 1000) == CostReport(2000, 1000, 1000, 20000)
  {
  }

  /** One ordinary message answered successfully: the user turn is appended,
      the window trimmed, and only then the reply appended. */
  function Exchange(h: seq<Msg>, text: string, reply: string): seq<Msg>
  {
    WithUserTurn(h, text) + [Msg(Assistant, reply)]
  }

  /** The history a run of successful exchanges leaves, from `h`. */
  function Converse(h: seq<Msg>, turns: seq<(string, string)>): seq<Msg>
  {
    if turns == [] then h
    else
      var n := |turns| - 1;
      Exchange(Converse(h, turns[..n]), turns[n].0, turns[n].1)
  }

  /** Every turn of a conversation, never trimmed. */
  function Transcript(turns: seq<(string, string)>): seq<Msg>
  {
    if turns == [] then []
    else
      var n := |turns| - 1;
      Transcript(turns[..n]) + [Msg(User, turns[n].0), Msg(Assistant, turns[n].1)]
  }

  lemma {:induction false} TranscriptLength(turns: seq<(string, string)>)
    ensures |Transcript(turns)| == 2 * |turns|
  {
    if turns != [] {
      TranscriptLength(turns[..|turns| - 1]);
    }
  }

  /** Because the window is trimmed before the reply is appended, a fresh
      conversation keeps the newest `WINDOW + 1` turns of its transcript,
      not the newest `WINDOW`. */
  lemma {:induction false} ConverseKeepsRecentTranscript(turns: seq<(string, string)>)
    ensures Converse([], turns) == LastN(Transcript(turns), WINDOW + 1)
  {
    if turns != [] {
      var n := |turns| - 1;
      var (text, reply) := turns[n];
      var t := Transcript(turns[..n]);
      ConverseKeepsRecentTranscript(turns[..n]);
      TranscriptLength(turns[..n]);
      var full := t + [Msg(User, text)];
      assert Window(LastN(t, WINDOW + 1) + [Msg(User, text)]) == LastN(full, WINDOW) by {
        if |t| > WINDOW + 1 {
          assert LastN(t, WINDOW + 1) + [Msg(User, text)] == full[|full| - WINDOW - 2..];
        }
      }
      assert Transcript(turns) == full + [Msg(Assistant, reply)];
    }
  }

  /** After more than `MAX_EXCHANGES` successful exchanges the history holds
      `WINDOW + 1` entries and begins with an assistant turn whose user turn
      has been dropped. */
  lemma LongConversationWindow(turns: seq<(string, string)>)
    requires |turns| > MAX_EXCHANGES
    ensures var h := Converse([], turns);
      && |h| == WINDOW + 1
      && h[0] == Msg(Assistant, turns[|turns| - MAX_EXCHANGES - 1].1)
      && h[1..] == Transcript(turns[|turns| - MAX_EXCHANGES..])
  {
    ConverseKeepsRecentTranscript(turns);
    var m := |turns| - MAX_EXCHANGES;
    TranscriptSplit(turns[..m], turns[m..]);
    assert turns[..m] + turns[m..] == turns;
    TranscriptLength(turns[m..]);
    TranscriptLength(turns[..m]);
    var front := turns[..m];
    assert front[..m - 1] == turns[..m - 1];
    assert Transcript(front) == Transcript(turns[..m - 1]) + [Msg(User, front[m - 1].0), Msg(Assistant, front[m - 1].1)];
  }

  lemma {:induction false} TranscriptSplit(a: seq<(string, string)>, b: seq<(string, string)>)
    ensures Transcript(a + b) == Transcript(a) + Transcript(b)
  {
    if b != [] {
      var n := |b| - 1;
      assert (a + b)[..|a + b| - 1] == a + b[..n];
      TranscriptSplit(a, b[..n]);
    } else {
      assert a + b == a;
    }
  }
}
