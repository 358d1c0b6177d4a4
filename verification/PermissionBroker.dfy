/** The permission broker of apps/api/src/kernel/permissions.ts: prompts that wait for
    an operator, and decisions that were remembered. */
module PermissionBroker {
  import opened Whitespace
  import opened Options

  type Id = nat

  datatype Risk = Low | Medium | High

  /** `command` is what a shell tool was asked to run, if it was given as text. */
  datatype Request = Request(id: Id, run: string, session: string, tool: string, risk: Risk, command: Option<string>)

  /** What a remembered decision is about. */
  datatype Scope = Scope(session: string, tool: string, risk: Risk, verb: Option<string>)

  /** What happened so far: a prompt settled, or a session's grants forgotten. */
  datatype Act =
    | Settled(request: Request, approved: bool, remembered: bool)
    | Forgot(session: string)

  // ----- keys

  predicate VerbChar(c: char) {
    'A' <= c <= 'Z' || 'a' <= c <= 'z' || '0' <= c <= '9' || c == '.' || c == '_' || c == '/' || c == '-'
  }

  const UNPARSED := "\U{0}unparsed"

  /** The first bare word of a command, or a mark no bare word can equal. */
  function Verb(command: string): (verb: string)
    ensures verb == UNPARSED || (verb != "" && forall i :: 0 <= i < |verb| ==> VerbChar(verb[i]))
  {
    var start := SkipSpace(command, 0);
    var end := WordEnd(command, start);
    if start < end then command[start..end] else UNPARSED
  }

  function WordEnd(s: string, from: nat): (end: nat)
    requires from <= |s|
    ensures from <= end <= |s| && forall i :: from <= i < end ==> VerbChar(s[i])
    decreases |s| - from
  {
    if from < |s| && VerbChar(s[from]) then WordEnd(s, from + 1) else from
  }

  function ScopeOf(r: Request): Scope {
    Scope(r.session, r.tool, r.risk, if r.command.Some? then Some(Verb(r.command.value)) else None)
  }

  /** A command: white space, a word of verb characters, and what no longer belongs to it. */
  ghost predicate OpensWith(command: string, gap: string, word: string, rest: string) {
    && command == gap + word + rest
    && Gap(gap, 0, |gap|) && (forall i :: 0 <= i < |word| ==> VerbChar(word[i]))
    && (rest != "" ==> !VerbChar(rest[0])) && (word == "" && rest != "" ==> !IsSpace(rest[0]))
  }

  /** Its verb is that word, the whole of it; and where there is none, the mark. */
  lemma VerbIsTheLeadingWord(command: string, gap: string, word: string, rest: string)
    requires OpensWith(command, gap, word, rest)
    ensures Verb(command) == if word != "" then word else "\U{0}unparsed"
  {
    var start, end := |gap|, |gap| + |word|;
    assert forall i :: 0 <= i < |gap| ==> command[i] == gap[i];
    if word != "" {
      assert command[start] == word[0];
      VerbCharIsNoSpace(word[0]);
    } else if rest != "" {
      assert command[start] == rest[0];
    }
    assert forall i :: start <= i < end ==> command[i] == word[i - start];
    assert rest != "" ==> command[end] == rest[0];
    hide IsSpace;
    hide VerbChar;
    SkipSpaceIs(command, 0, start);
    WordEndIs(command, start, end);
    assert command[start..end] == word;
  }

  lemma VerbCharIsNoSpace(c: char)
    requires VerbChar(c)
    ensures !IsSpace(c)
  {
  }

  lemma {:induction false} WordEndIs(s: string, from: nat, end: nat)
    requires from <= end <= |s| && forall i :: from <= i < end ==> VerbChar(s[i])
    requires end < |s| ==> !VerbChar(s[end])
    ensures WordEnd(s, from) == end
    decreases end - from
  {
    hide VerbChar;
    if from < end {
      WordEndIs(s, from + 1, end);
    }
  }

  /** Every command is of that form, in one way. */
  lemma EveryCommandOpens(command: string) returns (gap: string, word: string, rest: string)
    ensures OpensWith(command, gap, word, rest)
  {
    var start := SkipSpace(command, 0);
    var end := WordEnd(command, start);
    gap, word, rest := command[..start], command[start..end], command[end..];
    WordStops(command, start);
    hide IsSpace;
    hide VerbChar;
    assert command == gap + word + rest;
  }

  lemma {:induction false} WordStops(s: string, from: nat)
    requires from <= |s|
    ensures WordEnd(s, from) < |s| ==> !VerbChar(s[WordEnd(s, from)])
    decreases |s| - from
  {
    hide VerbChar;
    if from < |s| && VerbChar(s[from]) {
      WordStops(s, from + 1);
    }
  }

  function RiskName(risk: Risk): string {
    match risk
    case Low => "low"
    case Medium => "medium"
    case High => "high"
  }

  function KeyOf(s: Scope): string {
    s.session + "::" + s.tool + "::" + RiskName(s.risk) + if s.verb.Some? then "::" + s.verb.value else ""
  }

  predicate NoColon(s: string) {
    ':' !in s
  }

  predicate Plain(s: Scope) {
    NoColon(s.session) && NoColon(s.tool) && (s.verb.Some? ==> NoColon(s.verb.value))
  }

  lemma VerbsArePlain(command: string)
    ensures NoColon(Verb(command))
  {
  }

  /** Where the first colon stands is settled by the text. */
  lemma {:induction false} FirstColon(a: string, x: string, b: string, y: string)
    requires NoColon(a) && NoColon(b) && a + ":" + x == b + ":" + y
    ensures a == b && x == y
  {
    var s := a + ":" + x;
    assert s[|a|] == ':' && s[|b|] == ':';
    assert forall i :: 0 <= i < |a| ==> s[i] == a[i] && a[i] in a;
    assert forall i :: 0 <= i < |b| ==> s[i] == b[i] && b[i] in b;
    assert a == s[..|a|] && b == s[..|b|] && x == s[|a| + 1..] && y == s[|b| + 1..];
  }

  function Tail(s: Scope): string {
    if s.verb.Some? then RiskName(s.risk) + "::" + s.verb.value else RiskName(s.risk)
  }

  function AfterSession(s: Scope): string {
    ":" + (s.tool + ":" + (":" + Tail(s)))
  }

  lemma KeyParts(s: Scope)
    ensures KeyOf(s) == s.session + ":" + AfterSession(s)
  {
  }

  lemma TailsAgree(a: Scope, b: Scope)
    requires Plain(a) && Plain(b) && Tail(a) == Tail(b)
    ensures a.risk == b.risk && a.verb == b.verb
  {
    var n, m := RiskName(a.risk), RiskName(b.risk);
    assert NoColon(n) && NoColon(m);
    match (a.verb, b.verb)
    case (Some(v), Some(w)) =>
      assert Tail(a) == n + ":" + (":" + v) && Tail(b) == m + ":" + (":" + w);
      FirstColon(n, ":" + v, m, ":" + w);
      assert v == (":" + v)[1..] && w == (":" + w)[1..];
      RiskNamesDiffer(a.risk, b.risk);
    case (None, None) =>
      RiskNamesDiffer(a.risk, b.risk);
    case (Some(v), None) =>
      ColonSeen(n, v);
    case (None, Some(w)) =>
      ColonSeen(m, w);
  }

  lemma ColonSeen(name: string, verb: string)
    ensures !NoColon(name + "::" + verb)
  {
    assert (name + "::" + verb)[|name|] == ':';
  }

  lemma RiskNamesDiffer(a: Risk, b: Risk)
    requires RiskName(a) == RiskName(b)
    ensures a == b
  {
    assert |RiskName(Low)| == 3 && |RiskName(Medium)| == 6 && |RiskName(High)| == 4;
  }

  /** Without colons in session ids and tool names a key stands for one scope:
      one session, one tool, one risk, one leading word. */
  lemma KeysAgree(a: Scope, b: Scope)
    requires Plain(a) && Plain(b)
    ensures KeyOf(a) == KeyOf(b) <==> a == b
  {
    if KeyOf(a) == KeyOf(b) {
      hide KeyOf;
      KeyParts(a);
      KeyParts(b);
      var x, y := AfterSession(a), AfterSession(b);
      FirstColon(a.session, x, b.session, y);
      assert x[1..] == a.tool + ":" + (":" + Tail(a)) && y[1..] == b.tool + ":" + (":" + Tail(b));
      FirstColon(a.tool, ":" + Tail(a), b.tool, ":" + Tail(b));
      assert Tail(a) == (":" + Tail(a))[1..] && Tail(b) == (":" + Tail(b))[1..];
      TailsAgree(a, b);
    }
  }

  /** Session ids without colons are enough to tell sessions apart, whatever the tools
      are called. */
  lemma KeysKeepSessions(a: Scope, b: Scope)
    requires NoColon(a.session) && NoColon(b.session) && KeyOf(a) == KeyOf(b)
    ensures a.session == b.session
  {
    hide KeyOf;
    KeyParts(a);
    KeyParts(b);
    FirstColon(a.session, AfterSession(a), b.session, AfterSession(b));
  }

  /** Both conditions are needed: a colon in a session id can confuse two sessions, and
      one in a tool's name two tools and two risks of one session. */
  lemma KeysCollide()
    ensures exists a: Scope, b: Scope :: a.session != b.session && KeyOf(a) == KeyOf(b)
    ensures exists a: Scope, b: Scope ::
              NoColon(a.session) && a.session == b.session && a.risk == Low && b.risk == High && KeyOf(a) == KeyOf(b)
  {
    var a, b := Scope("s", "t::u", Low, None), Scope("s::t", "u", Low, None);
    assert KeyOf(a) == "s::t::u::low" == KeyOf(b);
    var c, d := Scope("s", "t::high", Low, None), Scope("s", "t", High, Some("low"));
    assert KeyOf(c) == "s::t::high::low" == KeyOf(d);
  }

  /** A session's prefix is found on its own keys and on no others. */
  lemma PrefixIsSession(s: Scope, session: string)
    requires NoColon(s.session) && NoColon(session)
    ensures session + "::" <= KeyOf(s) <==> s.session == session
  {
    var key := KeyOf(s);
    KeyParts(s);
    if session + "::" <= key {
      var rest := key[|session| + 1..];
      assert key == session + ":" + rest;
      FirstColon(session, rest, s.session, AfterSession(s));
    }
    if s.session == session {
      assert key == session + "::" + key[|session| + 2..];
    }
  }

  /** So an answer about one leading word says nothing about another: the two calls are in
      different scopes, and under different keys where no name holds a colon. */
  lemma OtherWordsAreOtherScopes(a: Request, b: Request, gap: string, word: string, rest: string,
                                 otherGap: string, otherWord: string, otherRest: string)
    requires a.command.Some? && OpensWith(a.command.value, gap, word, rest)
    requires b.command.Some? && OpensWith(b.command.value, otherGap, otherWord, otherRest)
    requires word != otherWord
    ensures ScopeOf(a) != ScopeOf(b)
    ensures NoColon(a.session) && NoColon(a.tool) && NoColon(b.session) && NoColon(b.tool) ==>
              KeyOf(ScopeOf(a)) != KeyOf(ScopeOf(b))
  {
    VerbIsTheLeadingWord(a.command.value, gap, word, rest);
    VerbIsTheLeadingWord(b.command.value, otherGap, otherWord, otherRest);
    MarkIsNoWord(word, otherWord);
    VerbsArePlain(a.command.value);
    VerbsArePlain(b.command.value);
    hide Verb;
    hide OpensWith;
    hide KeyOf;
    if NoColon(a.session) && NoColon(a.tool) && NoColon(b.session) && NoColon(b.tool) {
      KeysAgree(ScopeOf(a), ScopeOf(b));
    }
  }

  lemma MarkIsNoWord(word: string, other: string)
    requires word != other
    requires (forall i :: 0 <= i < |word| ==> VerbChar(word[i])) && (forall i :: 0 <= i < |other| ==> VerbChar(other[i]))
    ensures (if word != "" then word else "\U{0}unparsed") != (if other != "" then other else "\U{0}unparsed")
  {
    assert !VerbChar('\U{0}') && UNPARSED[0] == '\U{0}';
    if word != "" {
      assert VerbChar(word[0]);
    }
    if other != "" {
      assert VerbChar(other[0]);
    }
  }

  /** And two calls are in one scope when session, tool, risk and leading word are the same. */
  lemma SameWordIsSameScope(a: Request, b: Request, gap: string, word: string, rest: string, otherGap: string, otherRest: string)
    requires a.session == b.session && a.tool == b.tool && a.risk == b.risk
    requires a.command.Some? && OpensWith(a.command.value, gap, word, rest)
    requires b.command.Some? && OpensWith(b.command.value, otherGap, word, otherRest)
    ensures ScopeOf(a) == ScopeOf(b)
  {
    VerbIsTheLeadingWord(a.command.value, gap, word, rest);
    VerbIsTheLeadingWord(b.command.value, otherGap, word, otherRest);
    hide Verb;
  }

  // ----- what is remembered

  /** The decision that stands for a scope: the last one remembered for it, unless its
      session's grants were forgotten since. */
  function Decision(history: seq<Act>, scope: Scope): Option<bool> {
    if history == [] then None
    else
      match history[|history| - 1]
      case Settled(r, approved, true) =>
        if ScopeOf(r) == scope then Some(approved) else Decision(history[..|history| - 1], scope)
      case Settled(_, _, false) => Decision(history[..|history| - 1], scope)
      case Forgot(session) =>
        if session == scope.session then None else Decision(history[..|history| - 1], scope)
  }

  predicate PlainAct(act: Act) {
    match act
    case Settled(r, _, _) => Plain(ScopeOf(r))
    case Forgot(session) => NoColon(session)
  }

  ghost predicate AllPlain(history: seq<Act>) {
    forall i :: 0 <= i < |history| ==> PlainAct(history[i])
  }

  /** No approval of a high-risk call is ever remembered. */
  ghost predicate Sober(history: seq<Act>) {
    forall i :: 0 <= i < |history| ==>
      (history[i].Settled? && history[i].approved && history[i].remembered ==> history[i].request.risk != High)
  }

  function Look(grants: map<string, bool>, key: string): Option<bool> {
    if key in grants then Some(grants[key]) else None
  }

  /** The grants hold, key by key, the decision that stands. */
  ghost predicate Remembers(grants: map<string, bool>, history: seq<Act>) {
    AllPlain(history) ==> forall scope :: Plain(scope) ==> Look(grants, KeyOf(scope)) == Decision(history, scope)
  }

  function Granted(grants: map<string, bool>, r: Request, approved: bool, remembered: bool): map<string, bool> {
    if remembered then grants[KeyOf(ScopeOf(r)) := approved] else grants
  }

  lemma SettlingKeepsGrants(grants: map<string, bool>, history: seq<Act>, r: Request, approved: bool, remembered: bool)
    requires Remembers(grants, history)
    ensures Remembers(Granted(grants, r, approved, remembered), history + [Settled(r, approved, remembered)])
  {
    var act := Settled(r, approved, remembered);
    var more := history + [act];
    if AllPlain(more) {
      assert more[..|more| - 1] == history && more[|history|] == act;
      assert forall i :: 0 <= i < |history| ==> history[i] == more[i];
      forall scope | Plain(scope)
        ensures Look(Granted(grants, r, approved, remembered), KeyOf(scope)) == Decision(more, scope)
      {
        hide KeyOf;
        hide Verb;
        assert PlainAct(more[|history|]);
        KeysAgree(scope, ScopeOf(r));
      }
    }
  }

  function Cleared(grants: map<string, bool>, session: string): map<string, bool> {
    map key | key in grants && !(session + "::" <= key) :: grants[key]
  }

  lemma ForgettingKeepsGrants(grants: map<string, bool>, history: seq<Act>, session: string)
    requires Remembers(grants, history)
    ensures Remembers(Cleared(grants, session), history + [Forgot(session)])
  {
    var more := history + [Forgot(session)];
    if AllPlain(more) {
      assert more[..|more| - 1] == history && more[|history|] == Forgot(session);
      assert forall i :: 0 <= i < |history| ==> history[i] == more[i];
      forall scope | Plain(scope) ensures Look(Cleared(grants, session), KeyOf(scope)) == Decision(more, scope) {
        hide KeyOf;
        assert PlainAct(more[|history|]);
        PrefixIsSession(scope, session);
      }
    }
  }

  /** A decision that stands was made: an operator settled a prompt of the very same
      session, tool, risk and leading word that way and asked for it to be remembered,
      nothing since overrode it; and if it allows, the risk is not high. */
  lemma {:induction false} DecisionsWereMade(history: seq<Act>, scope: Scope)
    requires Sober(history) && Decision(history, scope).Some?
    ensures Decision(history, scope) == Some(true) ==> scope.risk != High
    ensures exists i :: 0 <= i < |history| && Stands(history, scope, i)
  {
    var init, last := history[..|history| - 1], history[|history| - 1];
    if last.Settled? && last.remembered && ScopeOf(last.request) == scope {
      assert Stands(history, scope, |history| - 1);
    } else {
      DecisionsWereMade(init, scope);
      var i :| 0 <= i < |init| && Stands(init, scope, i);
      assert Stands(history, scope, i);
    }
  }

  ghost predicate Stands(history: seq<Act>, scope: Scope, i: nat) {
    && i < |history| && history[i].Settled? && history[i].remembered && ScopeOf(history[i].request) == scope
    && Decision(history, scope) == Some(history[i].approved)
    && forall j :: i < j < |history| ==>
         && history[j] != Forgot(scope.session)
         && !(history[j].Settled? && history[j].remembered && ScopeOf(history[j].request) == scope)
  }

  /** Every grant was remembered, under its key, from an answer to a prompt. */
  ghost predicate Sourced(grants: map<string, bool>, history: seq<Act>) {
    forall key :: key in grants ==> exists i :: 0 <= i < |history| && GrantedBy(history[i], key, grants[key])
  }

  predicate GrantedBy(act: Act, key: string, approved: bool) {
    act.Settled? && act.remembered && act.approved == approved && KeyOf(ScopeOf(act.request)) == key
  }

  lemma SettlingKeepsSources(grants: map<string, bool>, history: seq<Act>, r: Request, approved: bool, remembered: bool)
    requires Sourced(grants, history)
    ensures Sourced(Granted(grants, r, approved, remembered), history + [Settled(r, approved, remembered)])
  {
    hide KeyOf;
    hide ScopeOf;
    var act := Settled(r, approved, remembered);
    var after, more := Granted(grants, r, approved, remembered), history + [act];
    forall key | key in after ensures exists i :: 0 <= i < |more| && GrantedBy(more[i], key, after[key]) {
      if remembered && key == KeyOf(ScopeOf(r)) {
        assert GrantedBy(more[|history|], key, after[key]);
      } else {
        var i :| 0 <= i < |history| && GrantedBy(history[i], key, grants[key]);
        assert GrantedBy(more[i], key, after[key]);
      }
    }
  }

  lemma ForgettingKeepsSources(grants: map<string, bool>, history: seq<Act>, session: string)
    requires Sourced(grants, history)
    ensures Sourced(Cleared(grants, session), history + [Forgot(session)])
  {
    hide GrantedBy;
    var after, more := Cleared(grants, session), history + [Forgot(session)];
    forall key | key in after ensures exists i :: 0 <= i < |more| && GrantedBy(more[i], key, after[key]) {
      var i :| 0 <= i < |history| && GrantedBy(history[i], key, grants[key]);
      assert GrantedBy(more[i], key, after[key]);
    }
  }

  /** A remembered answer never leaves its session: where session ids hold no colon, one
      that is found for a scope was given in that scope's session. */
  lemma GrantsStayInSession(grants: map<string, bool>, history: seq<Act>, scope: Scope)
    requires Sourced(grants, history) && NoColon(scope.session) && Look(grants, KeyOf(scope)).Some?
    requires forall i :: 0 <= i < |history| && history[i].Settled? ==> NoColon(history[i].request.session)
    ensures exists i :: 0 <= i < |history| && history[i].Settled? && history[i].remembered
                        && history[i].request.session == scope.session
                        && Some(history[i].approved) == Look(grants, KeyOf(scope))
  {
    hide KeyOf;
    var i :| 0 <= i < |history| && GrantedBy(history[i], KeyOf(scope), grants[KeyOf(scope)]);
    KeysKeepSessions(ScopeOf(history[i].request), scope);
  }

  // ----- the prompts

  function Times(history: seq<Act>, id: Id): nat {
    if history == [] then 0
    else
      var last := history[|history| - 1];
      Times(history[..|history| - 1], id) + if last.Settled? && last.request.id == id then 1 else 0
  }

  /** Every prompt ever raised either still waits or was settled once. */
  ghost predicate Balanced(pending: map<Id, Request>, asked: set<Id>, history: seq<Act>) {
    && (forall id :: id in pending ==> id in asked && pending[id].id == id)
    && (forall id :: Times(history, id) == if id in asked && id !in pending then 1 else 0)
  }

  lemma TimesGrow(history: seq<Act>, act: Act, id: Id)
    ensures Times(history + [act], id) == Times(history, id) + if act.Settled? && act.request.id == id then 1 else 0
  {
    assert (history + [act])[..|history|] == history;
  }

  lemma SettlingKeepsBalance(pending: map<Id, Request>, asked: set<Id>, history: seq<Act>, id: Id,
                             approved: bool, remembered: bool)
    requires Balanced(pending, asked, history) && id in pending
    ensures Balanced(pending - {id}, asked, history + [Settled(pending[id], approved, remembered)])
  {
    var act := Settled(pending[id], approved, remembered);
    forall other ensures Times(history + [act], other) == if other in asked && other !in pending - {id} then 1 else 0 {
      TimesGrow(history, act, other);
    }
  }

  lemma ForgettingKeepsRest(pending: map<Id, Request>, asked: set<Id>, history: seq<Act>, session: string)
    requires Balanced(pending, asked, history) && Sober(history)
    ensures Balanced(pending, asked, history + [Forgot(session)]) && Sober(history + [Forgot(session)])
  {
    forall id ensures Times(history + [Forgot(session)], id) == Times(history, id) {
      TimesGrow(history, Forgot(session), id);
    }
  }

  class Broker {
    var pending: map<Id, Request>
    var sessionGrants: map<string, bool>

    ghost var asked: set<Id>
    ghost var history: seq<Act>

    ghost predicate Valid()
      reads this
    {
      Balanced(pending, asked, history) && Remembers(sessionGrants, history) && Sober(history)
      && Sourced(sessionGrants, history)
    }

    constructor ()
      ensures Valid() && pending == map[] && asked == {} && history == []
    {
      pending, sessionGrants := map[], map[];
      asked, history := {}, [];
    }

    /** Ask for a call: a remembered decision answers at once, an aborted run is
        denied, and otherwise the prompt waits. */
    method Ask(request: Request, aborted: bool) returns (reply: Option<bool>)
      requires Valid() && request.id !in asked
      modifies this`pending, this`asked, this`history
      ensures Valid()
      ensures var remembered := Look(sessionGrants, KeyOf(ScopeOf(request)));
              && (AllPlain(old(history)) && Plain(ScopeOf(request)) ==> remembered == Decision(old(history), ScopeOf(request)))
              && (remembered.Some? ==>
                    reply == remembered && pending == old(pending) && asked == old(asked) && history == old(history))
              && (remembered.None? && !aborted ==>
                    && reply == None && pending == old(pending)[request.id := request]
                    && asked == old(asked) + {request.id} && history == old(history))
              && (remembered.None? && aborted ==>
                    && reply == Some(false) && pending == old(pending)
                    && asked == old(asked) + {request.id} && history == old(history) + [Settled(request, false, false)])
    {
      var key := KeyOf(ScopeOf(request));
      if key in sessionGrants {
        return Some(sessionGrants[key]);
      }
      ghost var before := pending;
      pending := pending[request.id := request];
      asked := asked + {request.id};
      if aborted {
        Decline(request.id);
        assert pending == before;
        return Some(false);
      }
      return None;
    }

    /** A prompt that timed out, or whose run was aborted; nothing if it is settled. */
    method Decline(id: Id)
      requires Valid()
      modifies this`pending, this`history
      ensures Valid() && pending == old(pending) - {id}
      ensures history == if id in old(pending) then old(history) + [Settled(old(pending)[id], false, false)] else old(history)
    {
      if id !in pending {
        return;
      }
      SettlingKeepsBalance(pending, asked, history, id, false, false);
      SettlingKeepsGrants(sessionGrants, history, pending[id], false, false);
      SettlingKeepsSources(sessionGrants, history, pending[id], false, false);
      history := history + [Settled(pending[id], false, false)];
      pending := pending - {id};
    }

    /** An operator's answer; false when the prompt is no longer there. */
    method Resolve(id: Id, approved: bool, remember: bool) returns (ok: bool)
      requires Valid()
      modifies this`pending, this`sessionGrants, this`history
      ensures Valid() && ok == (id in old(pending)) && pending == old(pending) - {id}
      ensures !ok ==> history == old(history) && sessionGrants == old(sessionGrants)
      ensures ok ==>
                var request := old(pending)[id];
                var remembered := remember && (!approved || request.risk != High);
                && history == old(history) + [Settled(request, approved, remembered)]
                && sessionGrants == Granted(old(sessionGrants), request, approved, remembered)
    {
      if id !in pending {
        return false;
      }
      var request := pending[id];
      var mayRemember := remember && (!approved || request.risk != High);
      SettlingKeepsBalance(pending, asked, history, id, approved, mayRemember);
      SettlingKeepsGrants(sessionGrants, history, request, approved, mayRemember);
      SettlingKeepsSources(sessionGrants, history, request, approved, mayRemember);
      if mayRemember {
        sessionGrants := sessionGrants[KeyOf(ScopeOf(request)) := approved];
      }
      history := history + [Settled(request, approved, mayRemember)];
      pending := pending - {id};
      return true;
    }

    /** Deny every prompt of a run and no other. */
    method CancelRun(run: string)
      requires Valid()
      modifies this`pending, this`sessionGrants, this`history
      ensures Valid() && sessionGrants == old(sessionGrants)
      ensures pending == map id | id in old(pending) && old(pending)[id].run != run :: old(pending)[id]
      ensures OnlyDenials(old(history), history, run)
    {
      ghost var before := pending;
      var ids := pending.Keys;
      while ids != {}
        invariant Valid() && sessionGrants == old(sessionGrants)
        invariant OnlyDenials(old(history), history, run)
        invariant ids <= before.Keys
        invariant forall id :: id in pending <==> id in before && (id in ids || before[id].run != run)
        invariant forall id :: id in pending ==> pending[id] == before[id]
      {
        hide Balanced;
        hide Remembers;
        hide Sober;
        hide Sourced;
        var id :| id in ids;
        if pending[id].run == run {
          var _ := Resolve(id, false, false);
        }
        ids := ids - {id};
      }
    }

    /** Forget a session's grants, and only those. */
    method ClearSessionGrants(session: string)
      requires Valid()
      modifies this`sessionGrants, this`history
      ensures Valid() && sessionGrants == Cleared(old(sessionGrants), session) && history == old(history) + [Forgot(session)]
    {
      hide Remembers;
      hide Sourced;
      hide Balanced;
      hide Sober;
      ghost var before := sessionGrants;
      ForgettingKeepsRest(pending, asked, history, session);
      ForgettingKeepsGrants(before, history, session);
      ForgettingKeepsSources(before, history, session);
      var keys := sessionGrants.Keys;
      while keys != {}
        invariant keys <= before.Keys && history == old(history)
        invariant forall key :: key in sessionGrants <==> key in before && (key in keys || !(session + "::" <= key))
        invariant forall key :: key in sessionGrants ==> sessionGrants[key] == before[key]
      {
        var key :| key in keys;
        if session + "::" <= key {
          sessionGrants := sessionGrants - {key};
        }
        keys := keys - {key};
      }
      assert sessionGrants == Cleared(before, session);
      history := history + [Forgot(session)];
    }
  }

  /** What was added is denials of the run's prompts, none of them remembered. */
  ghost predicate OnlyDenials(before: seq<Act>, after: seq<Act>, run: string) {
    && |before| <= |after| && after[..|before|] == before
    && forall i :: |before| <= i < |after| ==>
         after[i].Settled? && !after[i].approved && !after[i].remembered && after[i].request.run == run
  }
}
