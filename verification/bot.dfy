/**
  The chat handlers' conversation store: the module-level dictionary
  `user_contexts` from user id to the list of lines of that user's recent
  conversation, changed in place by `/clear` and by every text message.

  The reply of the generation client is an input: `generate` is whatever
  `generate_text` answers for a prompt, the network included.
 */
module Bot {

  /** A chat platform user id, `message.from_user.id`. */
  type UserId = int

  /** The most lines of conversation kept per user. */
  const MaxContext: nat := 20

  function Min(a: int, b: int): int {
    if a <= b then a else b
  }

  /** The context line recording what the user wrote. */
  function UserLine(text: string): string {
    "User: " + text
  }

  /** The context line recording what the model answered. */
  function AssistantLine(response: string): string {
    "Assistant: " + response
  }

  /** The number of characters in all lines together. */
  function TotalLength(lines: seq<string>): nat {
    if lines == [] then 0 else |lines[0]| + TotalLength(lines[1..])
  }

  /** `"\n".join(lines)`. */
  function Join(lines: seq<string>): string {
    if lines == [] then ""
    else if |lines| == 1 then lines[0]
    else lines[0] + "\n" + Join(lines[1..])
  }

  /** The joined text is empty for no lines; otherwise it starts with the
      first line and holds every character of the lines plus one separator
      between each two. */
  lemma {:induction false} JoinShape(lines: seq<string>)
    ensures lines == [] ==> Join(lines) == ""
    ensures lines != [] ==> |Join(lines)| == TotalLength(lines) + |lines| - 1
    ensures lines != [] ==> lines[0] <= Join(lines)
    decreases |lines|
  {
    if |lines| > 1 {
      JoinShape(lines[1..]);
    }
  }

  /** Appending a line to the list appends a newline and the line to the
      joined text, or gives the line alone when the list was empty. */
  lemma {:induction false} JoinSnoc(lines: seq<string>, last: string)
    ensures Join(lines + [last]) == if lines == [] then last else Join(lines) + "\n" + last
    decreases |lines|
  {
    if |lines| > 1 {
      assert (lines + [last])[1..] == lines[1..] + [last];
      JoinSnoc(lines[1..], last);
    } else if |lines| == 1 {
      assert (lines + [last])[1..] == [last];
    }
  }

  /** The joined prompt ends with its last line, after a newline when there
      was earlier context. */
  lemma PromptEndsWithLastLine(lines: seq<string>, last: string)
    ensures var prompt := Join(lines + [last]);
      |last| <= |prompt| && prompt[|prompt| - |last|..] == last
    ensures lines != [] ==> var prompt := Join(lines + [last]);
      |last| < |prompt| && prompt[|prompt| - |last| - 1] == '\n'
  {
    JoinSnoc(lines, last);
  }

  /** `lines[-20:]` when more than 20 lines are held, otherwise `lines`: the
      newest `min(|lines|, 20)` lines, in their order. */
  function Window(lines: seq<string>): (w: seq<string>)
    ensures |w| == Min(|lines|, MaxContext)
  {
    if |lines| > MaxContext then lines[|lines| - MaxContext..] else lines
  }

  /** The lines the window keeps are the newest ones, in their order. */
  lemma WindowIsSuffix(lines: seq<string>)
    ensures Window(lines) == lines[|lines| - |Window(lines)|..]
  {
  }

  /** Windowing after every append gives the same as windowing once at the
      end: the stored context is the last 20 lines of the whole history. */
  lemma WindowOfWindow(lines: seq<string>, more: seq<string>)
    ensures Window(Window(lines) + more) == Window(lines + more)
  {
    if |lines| > MaxContext {
      var kept := lines[|lines| - MaxContext..];
      var all := lines + more;
      assert kept + more == all[|lines| - MaxContext..];
      assert |kept + more| >= MaxContext;
      assert Window(kept + more) == all[|all| - MaxContext..];
    }
  }

  /** One exchange added to a context of `L` lines leaves `min(L + 2, 20)`
      lines that end with the user's line and then the assistant's. */
  lemma ExchangeKeepsNewest(before: seq<string>, userLine: string, assistantLine: string)
    ensures var after := Window(before + [userLine, assistantLine]);
      |after| == Min(|before| + 2, MaxContext) &&
      after[|after| - 2] == userLine && after[|after| - 1] == assistantLine &&
      after == (before + [userLine, assistantLine])[|before| + 2 - |after|..]
  {
  }

  /** The context of a user in a store, empty for one without an entry. */
  function Lookup(store: map<UserId, seq<string>>, user: UserId): seq<string> {
    if user in store then store[user] else []
  }

  /** Each stored context is the last 20 lines of its user's transcript. */
  ghost predicate Consistent(contexts: map<UserId, seq<string>>, transcripts: map<UserId, seq<string>>) {
    contexts.Keys == transcripts.Keys &&
    forall u :: u in contexts ==> contexts[u] == Window(transcripts[u])
  }

  /** Appending to a user's transcript and windowing that user's context keeps
      the store consistent. */
  lemma ExchangeKeepsConsistent(contexts: map<UserId, seq<string>>, transcripts: map<UserId, seq<string>>,
                                user: UserId, exchange: seq<string>)
    requires Consistent(contexts, transcripts)
    ensures Consistent(contexts[user := Window(Lookup(contexts, user) + exchange)],
                       transcripts[user := Lookup(transcripts, user) + exchange])
  {
    WindowOfWindow(Lookup(transcripts, user), exchange);
  }

  /** In a consistent store no context holds more than 20 lines. */
  lemma ConsistentIsBounded(contexts: map<UserId, seq<string>>, transcripts: map<UserId, seq<string>>)
    requires Consistent(contexts, transcripts)
    ensures forall u :: u in contexts ==> |contexts[u]| <= MaxContext
  {
    forall u | u in contexts
      ensures |contexts[u]| <= MaxContext
    {
      assert contexts[u] == Window(transcripts[u]);
    }
  }

  /** The list `handle_text` leaves under the user's key is the window of the
      old context plus the exchange. */
  lemma StoreAfterExchange(others: map<UserId, seq<string>>, user: UserId, before: seq<string>,
                           userLine: string, assistantLine: string, lines: seq<string>)
    requires before == Lookup(others, user)
    requires var appended := before + [userLine] + [assistantLine];
      lines == if |appended| > MaxContext then appended[|appended| - MaxContext..] else appended
    ensures lines == Window(before + [userLine, assistantLine])
  {
    assert before + [userLine] + [assistantLine] == before + [userLine, assistantLine];
  }

  /** Setting an entry twice keeps the second value only. */
  lemma UpdateTwice(store: map<UserId, seq<string>>, user: UserId, first: seq<string>, second: seq<string>)
    ensures store[user := first][user := second] == store[user := second]
  {
  }

  /** Setting one user's entry leaves every other user's entry as it was. */
  lemma UpdateIsolates(store: map<UserId, seq<string>>, user: UserId, lines: seq<string>)
    ensures forall u :: u != user ==>
      Lookup(store[user := lines], u) == Lookup(store, u) && (u in store[user := lines] <==> u in store)
  {
  }

  /** The per-user conversation store. */
  class ContextStore {
    /** `user_contexts`. */
    var contexts: map<UserId, seq<string>>
    /** Every line each user's context has received since it was created or
        last cleared, evicted ones included. */
    ghost var transcripts: map<UserId, seq<string>>

    /** Each stored context is the last 20 lines of its transcript. */
    ghost predicate Valid()
      reads this
    {
      Consistent(contexts, transcripts)
    }

    /** The context of a user, empty for one without an entry. */
    function ContextOf(user: UserId): seq<string>
      reads this
    {
      Lookup(contexts, user)
    }

    /** The empty dictionary the module starts with. */
    constructor ()
      ensures Valid()
      ensures contexts == map[] && transcripts == map[]
    {
      contexts := map[];
      transcripts := map[];
    }

    /** `handle_clear`: an existing context becomes empty; an absent user gets
        no entry. No other user's context changes. */
    method HandleClear(user: UserId)
      requires Valid()
      modifies this
      ensures Valid()
      ensures forall u :: u in contexts ==> |contexts[u]| <= MaxContext
      ensures ContextOf(user) == []
      ensures user in old(contexts) ==> contexts == old(contexts)[user := []]
      ensures user !in old(contexts) ==> contexts == old(contexts)
      ensures forall u :: u != user ==> ContextOf(u) == old(ContextOf(u)) && (u in contexts <==> u in old(contexts))
      ensures transcripts == if user in old(contexts) then old(transcripts)[user := []] else old(transcripts)
    {
      if user in contexts {
        contexts := contexts[user := []];
        transcripts := transcripts[user := []];
      }
      ConsistentIsBounded(contexts, transcripts);
    }

    /** `handle_text`: create the context if absent, append the user's line,
        join the context into the prompt, ask the generator, append its answer,
        and keep the last 20 lines. Only this user's context changes. */
    method HandleText(user: UserId, text: string, generate: string -> string)
      returns (prompt: string, response: string)
      requires Valid()
      modifies this
      ensures Valid()
      ensures prompt == Join(old(ContextOf(user)) + [UserLine(text)])
      ensures response == generate(prompt)
      ensures forall u :: u in contexts ==> |contexts[u]| <= MaxContext
      ensures contexts == old(contexts)[user := Window(old(ContextOf(user)) + [UserLine(text), AssistantLine(response)])]
      ensures |contexts[user]| == Min(|old(ContextOf(user))| + 2, MaxContext)
      ensures contexts[user][|contexts[user]| - 2] == UserLine(text)
      ensures contexts[user][|contexts[user]| - 1] == AssistantLine(response)
      ensures forall u :: u != user ==> ContextOf(u) == old(ContextOf(u)) && (u in contexts <==> u in old(contexts))
      ensures transcripts == old(transcripts)[user := Lookup(old(transcripts), user) + [UserLine(text), AssistantLine(response)]]
    {
      ghost var before := ContextOf(user);
      ghost var history := Lookup(transcripts, user);
      if user !in contexts {
        contexts := contexts[user := []];
      }
      ghost var created := contexts;
      // `lines` is the list object stored under the user's key; the appends
      // change it in place, so the entry is written back after each step at
      // which the dictionary is read or rebound.
      var lines := contexts[user];
      lines := lines + [UserLine(text)];
      contexts := contexts[user := lines];
      prompt := Join(contexts[user]);
      response := generate(prompt);
      ghost var exchange := [UserLine(text), AssistantLine(response)];
      lines := lines + [AssistantLine(response)];
      if |lines| > MaxContext {
        lines := lines[|lines| - MaxContext..];
      }
      contexts := contexts[user := lines];
      UpdateTwice(created, user, created[user] + [UserLine(text)], lines);
      if user !in old(contexts) {
        UpdateTwice(old(contexts), user, [], lines);
      }
      transcripts := transcripts[user := history + exchange];

      StoreAfterExchange(old(contexts), user, before, UserLine(text), AssistantLine(response), lines);
      UpdateIsolates(old(contexts), user, lines);
      ExchangeKeepsNewest(before, UserLine(text), AssistantLine(response));
      ExchangeKeepsConsistent(old(contexts), old(transcripts), user, exchange);
      ConsistentIsBounded(contexts, transcripts);
    }
  }
}
