/** The conversation ledger of app.py: per-session turn lists kept in
    process memory, and the chat, history, clear and stats handlers over
    them, with the HTTP layer reduced to its accept/reject outcome. */
module ChatServer {

  import opened Wrappers
  import opened Seqs
  import opened Text
  import opened GamingAssistant

  /** Session id to the turns recorded for it, oldest first. */
  type Ledger = map<string, seq<Turn>>

  /** A session keeps at most this many turns. */
  const Capacity: nat := 20

  const DefaultSession := "default"

  const EmptyMessageError := "Message cannot be empty"

  /** The JSON fields of a chat request; `None` is a missing field. */
  datatype ChatRequest = ChatRequest(message: Option<string>, game: Option<string>, sessionId: Option<string>)

  /** A rejected request, or the assistant's reply with the messages it sent. */
  datatype Response = BadRequest(error: string) | Answered(text: string, sent: Option<seq<Message>>)

  datatype ChatResult = ChatResult(ledger: Ledger, response: Response)

  datatype Stats = Stats(totalMessages: nat, sessionId: string, gamesDiscussed: set<string>)

  /** Every session holds at most `Capacity` turns. */
  ghost predicate Bounded(ledger: Ledger)
  {
    forall s :: s in ledger ==> |ledger[s]| <= Capacity
  }

  function SessionOf(sessionId: Option<string>): string
  {
    sessionId.GetOr(DefaultSession)
  }

  /** The turns of a session; an unknown session has none. */
  function History(ledger: Ledger, sid: string): seq<Turn>
  {
    if sid in ledger then ledger[sid] else []
  }

  /** Appending a turn and keeping the most recent `Capacity`. */
  function Record(turns: seq<Turn>, t: Turn): (r: seq<Turn>)
    ensures |r| == Min(|turns| + 1, Capacity)
    ensures r[|r| - 1] == t
    ensures IsSuffix(r, turns + [t])
  {
    LastN(turns + [t], Capacity)
  }

  /** The chat handler. A message that is empty once stripped is rejected
      before anything else happens. Otherwise the assistant is asked with
      the session's turns as they are before this request, and the new turn
      is recorded afterwards. */
  function Chat(ledger: Ledger, cfg: Config, provider: Provider, req: ChatRequest, now: string): (r: ChatResult)
    ensures r.response.BadRequest? <==> AllSpace(req.message.GetOr(""))
    ensures AllSpace(req.message.GetOr("")) ==> r == ChatResult(ledger, BadRequest(EmptyMessageError))
  {
    var msg := Strip(req.message.GetOr(""));
    if msg == [] then
      ChatResult(ledger, BadRequest(EmptyMessageError))
    else
      var sid := SessionOf(req.sessionId);
      var game := req.game.GetOr(General);
      Accept(ledger, sid, msg, game, now, GetResponse(cfg, msg, game, History(ledger, sid), provider))
  }

  /** Recording an answered message: the session is created if unseen and
      every other session is left alone; the turn holding the message, the
      reply and the topic becomes the session's last, after the turns it
      had, with the oldest dropped beyond `Capacity`. */
  function Accept(ledger: Ledger, sid: string, msg: string, game: string, now: string, reply: Reply): (r: ChatResult)
    ensures r.response == Answered(reply.text, reply.sent)
    ensures forall s :: s in r.ledger <==> s in ledger || s == sid
    ensures forall s :: s in ledger && s != sid ==> r.ledger[s] == ledger[s]
    ensures var before := History(ledger, sid);
      var after := r.ledger[sid];
      && |after| == Min(|before| + 1, Capacity)
      && after[|after| - 1] == Turn(msg, reply.text, now, game)
      && IsSuffix(after, before + [Turn(msg, reply.text, now, game)])
  {
    var after := Record(History(ledger, sid), Turn(msg, reply.text, now, game));
    ChatResult(ledger[sid := after], Answered(reply.text, reply.sent))
  }

  /** A message that is not blank is answered by asking the assistant with
      the session's turns as they were before this request, and is recorded
      with the reply the assistant gave. */
  lemma ChatAccepts(ledger: Ledger, cfg: Config, provider: Provider, req: ChatRequest, now: string)
    requires !AllSpace(req.message.GetOr(""))
    ensures var sid := SessionOf(req.sessionId);
      var msg := Strip(req.message.GetOr(""));
      var game := req.game.GetOr(General);
      var reply := GetResponse(cfg, msg, game, History(ledger, sid), provider);
      && Chat(ledger, cfg, provider, req, now) == Accept(ledger, sid, msg, game, now, reply)
      && (IsReady(cfg) <==> reply.sent == Some(Assemble(cfg.systemPrompt, game, History(ledger, sid), msg)))
  {
  }

  /** The history handler: the session's turns, or none for an unknown session. */
  function GetHistory(ledger: Ledger, sessionId: Option<string>): (h: seq<Turn>)
    ensures SessionOf(sessionId) !in ledger ==> h == []
    ensures SessionOf(sessionId) in ledger ==> h == ledger[SessionOf(sessionId)]
  {
    History(ledger, SessionOf(sessionId))
  }

  /** What the history handler shows after a chat: for a blank message the
      session's turns as before; otherwise its turns before the request with
      the new turn recorded, oldest dropped beyond `Capacity`. */
  lemma HistoryAfterChat(ledger: Ledger, cfg: Config, provider: Provider, req: ChatRequest, now: string)
    ensures var after := GetHistory(Chat(ledger, cfg, provider, req, now).ledger, req.sessionId);
      var before := GetHistory(ledger, req.sessionId);
      var msg := Strip(req.message.GetOr(""));
      var game := req.game.GetOr(General);
      var reply := GetResponse(cfg, msg, game, before, provider);
      && (AllSpace(req.message.GetOr("")) ==> after == before)
      && (!AllSpace(req.message.GetOr("")) ==> after == Record(before, Turn(msg, reply.text, now, game)))
  {
    if !AllSpace(req.message.GetOr("")) {
      ChatAccepts(ledger, cfg, provider, req, now);
    }
  }

  /** The clear handler: an existing session is emptied, an unknown one is
      left absent, and every other session is untouched. */
  function Clear(ledger: Ledger, sessionId: Option<string>): (r: Ledger)
    ensures r.Keys == ledger.Keys
    ensures History(r, SessionOf(sessionId)) == []
    ensures forall s :: s in ledger && s != SessionOf(sessionId) ==> r[s] == ledger[s]
  {
    var sid := SessionOf(sessionId);
    if sid in ledger then ledger[sid := []] else ledger
  }

  /** The distinct topic tags of a list of turns. */
  function GamesOf(turns: seq<Turn>): (g: set<string>)
    ensures forall i :: 0 <= i < |turns| ==> turns[i].game in g
    ensures forall x :: x in g ==> exists i :: 0 <= i < |turns| && turns[i].game == x
  {
    if turns == [] then
      {}
    else
      var rest := GamesOf(turns[1..]);
      assert forall i :: 1 <= i < |turns| ==> turns[i] == turns[1..][i - 1];
      {turns[0].game} + rest
  }

  /** The stats handler: the number of stored turns and the set of topics
      they were asked under. */
  function GetStats(ledger: Ledger, sessionId: Option<string>): (r: Stats)
    ensures r.sessionId == SessionOf(sessionId)
    ensures r.totalMessages == |History(ledger, r.sessionId)|
    ensures forall i :: 0 <= i < r.totalMessages ==>
      History(ledger, r.sessionId)[i].game in r.gamesDiscussed
    ensures forall x :: x in r.gamesDiscussed ==>
      exists i :: 0 <= i < r.totalMessages && History(ledger, r.sessionId)[i].game == x
    ensures r.sessionId !in ledger ==> r.totalMessages == 0 && r.gamesDiscussed == {}
  {
    var sid := SessionOf(sessionId);
    var h := History(ledger, sid);
    Stats(|h|, sid, GamesOf(h))
  }

  /** A chat handled on a ledger within the bound leaves it within the
      bound; so does clearing. */
  lemma ChatKeepsBound(ledger: Ledger, cfg: Config, provider: Provider, req: ChatRequest, now: string)
    requires Bounded(ledger)
    ensures Bounded(Chat(ledger, cfg, provider, req, now).ledger)
  {
  }

  lemma ClearKeepsBound(ledger: Ledger, sessionId: Option<string>)
    requires Bounded(ledger)
    ensures Bounded(Clear(ledger, sessionId))
  {
  }

  /** Clearing twice is clearing once, and clearing an unknown session
      changes nothing. */
  lemma ClearIdempotent(ledger: Ledger, sessionId: Option<string>)
    ensures Clear(Clear(ledger, sessionId), sessionId) == Clear(ledger, sessionId)
    ensures SessionOf(sessionId) !in ledger ==> Clear(ledger, sessionId) == ledger
  {
  }

  /** After a clear the session reports no turns and no topics, and its
      history is empty. */
  lemma StatsAfterClear(ledger: Ledger, sessionId: Option<string>)
    ensures GetStats(Clear(ledger, sessionId), sessionId) == Stats(0, SessionOf(sessionId), {})
    ensures GetHistory(Clear(ledger, sessionId), sessionId) == []
  {
  }

  /** After an answered message the session's stats count the turns kept
      and list the topic it was asked under. */
  lemma StatsAfterAccept(ledger: Ledger, sid: string, msg: string, game: string, now: string, reply: Reply)
    ensures var st := GetStats(Accept(ledger, sid, msg, game, now, reply).ledger, Some(sid));
      && st.totalMessages == Min(|History(ledger, sid)| + 1, Capacity)
      && game in st.gamesDiscussed
  {
    var after := Accept(ledger, sid, msg, game, now, reply).ledger;
    assert History(after, sid) == after[sid];
    assert after[sid][|after[sid]| - 1].game == game;
  }

  /** Two answers recorded one after the other, in different sessions,
      as two map updates of the original ledger. */
  lemma AcceptTwice(ledger: Ledger, s1: string, m1: string, g1: string, n1: string, r1: Reply,
                    s2: string, m2: string, g2: string, n2: string, r2: Reply)
    requires s1 != s2
    ensures Accept(Accept(ledger, s1, m1, g1, n1, r1).ledger, s2, m2, g2, n2, r2).ledger
         == ledger[s1 := Record(History(ledger, s1), Turn(m1, r1.text, n1, g1))]
                  [s2 := Record(History(ledger, s2), Turn(m2, r2.text, n2, g2))]
  {
    var l1 := ledger[s1 := Record(History(ledger, s1), Turn(m1, r1.text, n1, g1))];
    assert Accept(ledger, s1, m1, g1, n1, r1).ledger == l1;
    assert History(l1, s2) == History(ledger, s2);
  }

  /** Updating a map at two different keys gives the same map in either order. */
  lemma UpdatesCommute<K, V>(m: map<K, V>, k1: K, v1: V, k2: K, v2: V)
    requires k1 != k2
    ensures m[k1 := v1][k2 := v2] == m[k2 := v2][k1 := v1]
  {
  }

  /** Answers recorded in two different sessions do not interfere: the
      order in which they arrive does not change the resulting ledger. */
  lemma AcceptCommutes(ledger: Ledger, s1: string, m1: string, g1: string, n1: string, r1: Reply,
                       s2: string, m2: string, g2: string, n2: string, r2: Reply)
    requires s1 != s2
    ensures Accept(Accept(ledger, s1, m1, g1, n1, r1).ledger, s2, m2, g2, n2, r2).ledger
         == Accept(Accept(ledger, s2, m2, g2, n2, r2).ledger, s1, m1, g1, n1, r1).ledger
  {
    AcceptTwice(ledger, s1, m1, g1, n1, r1, s2, m2, g2, n2, r2);
    AcceptTwice(ledger, s2, m2, g2, n2, r2, s1, m1, g1, n1, r1);
    UpdatesCommute(ledger, s1, Record(History(ledger, s1), Turn(m1, r1.text, n1, g1)),
                           s2, Record(History(ledger, s2), Turn(m2, r2.text, n2, g2)));
  }

  /** A session's turns after recording `ts` one by one, starting from `turns`. */
  function Replay(turns: seq<Turn>, ts: seq<Turn>): seq<Turn>
    decreases |ts|
  {
    if ts == [] then turns else Replay(Record(turns, ts[0]), ts[1..])
  }

  /** Trimming after every append keeps exactly what one trim at the end
      would: the most recent `Capacity` turns of everything recorded. */
  lemma {:induction false} ReplayKeepsLast(s: seq<Turn>, ts: seq<Turn>)
    ensures Replay(LastN(s, Capacity), ts) == LastN(s + ts, Capacity)
    decreases |ts|
  {
    if ts == [] {
      assert s + ts == s;
    } else {
      LastNAppend(s, ts[0], Capacity);
      ReplayKeepsLast(s + [ts[0]], ts[1..]);
      assert (s + [ts[0]]) + ts[1..] == s + ts;
    }
  }

  /** A fresh session keeps the most recent `Capacity` of the turns recorded in it. */
  lemma ReplayFresh(ts: seq<Turn>)
    ensures Replay([], ts) == LastN(ts, Capacity)
  {
    var empty: seq<Turn> := [];
    ReplayKeepsLast(empty, ts);
    assert LastN(empty, Capacity) == empty && empty + ts == ts;
  }

  /** Twenty-five messages in a fresh session leave turns 6 to 25: the
      first five are gone and the sixth is now the oldest. */
  lemma TwentyFiveTurns(ts: seq<Turn>)
    requires |ts| == 25
    ensures Replay([], ts) == ts[5..]
    ensures |Replay([], ts)| == Capacity && Replay([], ts)[0] == ts[5]
  {
    ReplayFresh(ts);
  }
}
