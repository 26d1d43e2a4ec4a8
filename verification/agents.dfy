/** One tutoring turn of Backend/app/agents.py: the `teacher_agent` router, the
    four handler nodes and the compiled graph connecting them, with the global
    `progress` tracker threaded through explicitly. */
module Agents {
  import opened Outcomes
  import opened Text
  import opened Difficulty
  import opened Tools

  // ---------------------------------------------------------------------------
  // State

  datatype Role = Human | Ai

  datatype Message = Message(role: Role, content: string)

  /** The graph state: the message list and the name of the node to run next. */
  datatype State = State(messages: seq<Message>, next: string)

  /** LangGraph's terminal marker `END`. */
  const End := "__end__"

  /** The text of the last message, which every node reads. */
  function Input(s: State): string
    requires |s.messages| > 0
  {
    s.messages[|s.messages| - 1].content
  }

  /** The external engines a turn calls, given as the outcome each returns (or
      the exception it raises) for its argument. */
  datatype Env = Env(
    languageTool: string -> Outcome<seq<GrammarMatch>>,
    gtts: string -> Outcome<()>,
    llm: string -> Outcome<string>)

  /** What a node hands on: the state and the progress tracker after it. */
  datatype Turn = Turn(state: State, progress: UserProgress)

  // ---------------------------------------------------------------------------
  // Routing

  datatype Handler = Grammar | Vocabulary | Pronunciation | Conversation
  {
    /** The graph node implementing this handler. */
    function NodeName(): string
    {
      match this
      case Grammar => "grammar_agent"
      case Vocabulary => "vocabulary_agent"
      case Pronunciation => "pronunciation_agent"
      case Conversation => "conversation_agent"
    }
  }

  /** The handler whose node is called `name`, if any. */
  function HandlerNamed(name: string): (h: Option<Handler>)
    ensures h.Some? ==> h.value.NodeName() == name
    ensures h.None? ==> forall x: Handler :: x.NodeName() != name
  {
    if name == "grammar_agent" then Some(Grammar)
    else if name == "vocabulary_agent" then Some(Vocabulary)
    else if name == "pronunciation_agent" then Some(Pronunciation)
    else if name == "conversation_agent" then Some(Conversation)
    else None
  }

  /** The handler `teacher_agent` chooses for a message text: substring tests
      on the lower-cased text, in a fixed order, the first that matches wins. */
  function Route(text: string): Handler
  {
    var input := Lower(text);
    if Contains(input, "grammar") then Grammar
    else if Contains(input, "vocabulary") || Contains(input, "word") then Vocabulary
    else if Contains(input, "pronounce") || Contains(input, "pronunciation") then Pronunciation
    else Conversation
  }

  /** `teacher_agent`: sets `next` to the chosen node and touches nothing else. */
  function TeacherAgent(s: State): (r: State)
    requires |s.messages| > 0
    ensures r.messages == s.messages
    ensures HandlerNamed(r.next) == Some(Route(Input(s)))
  {
    s.(next := Route(Input(s)).NodeName())
  }

  /** The ordered keyword table the router follows. */
  const Rules: seq<(Handler, seq<string>)> := [
    (Grammar, ["grammar"]),
    (Vocabulary, ["vocabulary", "word"]),
    (Pronunciation, ["pronounce", "pronunciation"])
  ]

  /** Table-driven reference router: the handler of the first rule with a
      keyword in `input`, the conversation handler when none has one. */
  function FirstMatch(rules: seq<(Handler, seq<string>)>, input: string): Handler
  {
    if |rules| == 0 then Conversation
    else if exists kw :: kw in rules[0].1 && Contains(input, kw) then rules[0].0
    else FirstMatch(rules[1..], input)
  }

  /** The if/elif chain is the ordered table with first-match-wins. */
  lemma RouteIsFirstMatch(text: string)
    ensures Route(text) == FirstMatch(Rules, Lower(text))
  {
    var input := Lower(text);
    var r1 := Rules[1..];
    var r2 := r1[1..];
    var g := Contains(input, "grammar");
    var v := Contains(input, "vocabulary") || Contains(input, "word");
    var pr := Contains(input, "pronounce") || Contains(input, "pronunciation");
    assert r2 == [(Pronunciation, ["pronounce", "pronunciation"])] && r2[1..] == [];
    assert (exists kw :: kw in r2[0].1 && Contains(input, kw)) <==> pr;
    assert FirstMatch(r2, input) == if pr then Pronunciation else Conversation;
    assert r1[0] == (Vocabulary, ["vocabulary", "word"]);
    assert (exists kw :: kw in r1[0].1 && Contains(input, kw)) <==> v;
    assert FirstMatch(r1, input) == if v then Vocabulary else FirstMatch(r2, input);
    assert Rules[0] == (Grammar, ["grammar"]);
    assert (exists kw :: kw in Rules[0].1 && Contains(input, kw)) <==> g;
    assert FirstMatch(Rules, input) == if g then Grammar else FirstMatch(r1, input);
  }

  /** Lower-casing is idempotent, so the router ignores ASCII case. */
  lemma RouteIgnoresCase(text: string)
    ensures Route(Lower(text)) == Route(text)
  {
    assert Lower(Lower(text)) == Lower(text);
  }

  /** A lower-case keyword present in the text is present after lower-casing. */
  lemma KeywordSurvivesLower(text: string, kw: string, i: int)
    requires OccursAt(text, kw, i)
    requires forall k :: 0 <= k < |kw| ==> !('A' <= kw[k] <= 'Z')
    ensures Contains(Lower(text), kw)
  {
    OccursAtChars(text, kw, i);
    assert Lower(text)[i..i + |kw|] == kw;
    assert OccursAt(Lower(text), kw, i);
  }

  /** A text shorter than every keyword goes to the conversation handler. */
  lemma ShortTextIsConversation(text: string)
    requires |text| < 4
    ensures Route(text) == Conversation
  {
  }

  /** First match wins: "word grammar" has a vocabulary keyword but goes to the
      grammar handler. */
  lemma FirstMatchWins()
    ensures Route("word grammar") == Grammar
  {
    KeywordSurvivesLower("word grammar", "grammar", 5);
  }

  /** The grammar keyword is found in any letter case. */
  lemma GrammarInAnyCase()
    ensures Route("check my grammar please") == Grammar
    ensures Route("Explain GRAMMAR") == Grammar
  {
    KeywordSurvivesLower("check my grammar please", "grammar", 9);
    UpperKeywordLowered();
    assert OccursAt(Lower("Explain GRAMMAR"), "grammar", 8);
  }

  /** Lower-casing turns the upper-case keyword into "grammar". */
  lemma UpperKeywordLowered()
    ensures |Lower("Explain GRAMMAR")| == 15
    ensures Lower("Explain GRAMMAR")[8..15] == "grammar"
  {
    var low := Lower("Explain GRAMMAR");
    assert "Explain GRAMMAR"[8..15] == "GRAMMAR";
    assert forall k :: 8 <= k < 15 ==> low[k] == LowerChar("Explain GRAMMAR"[k]);
  }

  // ---------------------------------------------------------------------------
  // Handlers

  /** A handler's effect on the state: exactly one AI message is appended, the
      earlier messages are kept, and `next` becomes END. */
  predicate RepliedOnce(before: State, after: State)
  {
    && |after.messages| == |before.messages| + 1
    && after.messages[..|before.messages|] == before.messages
    && after.messages[|before.messages|].role == Ai
    && after.next == End
  }

  /** Appending the AI reply `response` and setting `next` to END. */
  function Respond(s: State, response: string): (r: State)
    ensures RepliedOnce(s, r)
    ensures Input(r) == response
  {
    State(s.messages + [Message(Ai, response)], End)
  }

  /** `grammar_agent`: reports LanguageTool's matches for the last message and
      records the report as a correct answer iff it says "No grammar errors". */
  function GrammarAgent(s: State, p: UserProgress, env: Env): (r: Outcome<Turn>)
    requires |s.messages| > 0
    ensures r.Raised? <==> env.languageTool(Input(s)).Raised?
    ensures r.Done? ==>
              var matches := env.languageTool(Input(s)).value;
              && RepliedOnce(s, r.value.state)
              && Input(r.value.state) == CheckGrammar(matches)
              && r.value.progress == Update(p, |matches| == 0 || MentionsNoErrors(matches))
  {
    match env.languageTool(Input(s))
    case Raised(e) => Raised(e)
    case Done(matches) =>
      var response := CheckGrammar(matches);
      NoErrorsSignal(matches);
      Done(Turn(Respond(s, response), Update(p, Contains(response, NoErrorsPhrase))))
  }

  /** `vocabulary_agent`: defines the last whitespace-separated token of the
      last message, as typed; `split()[-1]` raises when there is none. */
  function VocabularyAgent(s: State, p: UserProgress): (r: Outcome<Turn>)
    requires |s.messages| > 0
    ensures r.Raised? <==> forall k :: 0 <= k < |Input(s)| ==> IsPySpace(Input(s)[k])
    ensures r.Done? ==>
              && RepliedOnce(s, r.value.state)
              && Input(r.value.state) == DefineWord(LastWord(Input(s)).value)
              && r.value.progress == p
  {
    match LastWord(Input(s))
    case None => Raised("IndexError: list index out of range")
    case Some(word) => Done(Turn(Respond(s, DefineWord(word)), p))
  }

  /** The reply announcing the audio file. */
  const PronunciationReply := "Pronunciation audio generated: " + AudioUrl

  /** `pronunciation_agent`: has gTTS speak the last message and announces the
      fixed audio URL. */
  function PronunciationAgent(s: State, p: UserProgress, env: Env): (r: Outcome<Turn>)
    requires |s.messages| > 0
    ensures r.Raised? <==> env.gtts(Input(s)).Raised?
    ensures r.Done? ==>
              && RepliedOnce(s, r.value.state)
              && Input(r.value.state) == PronunciationReply
              && r.value.progress == p
  {
    match PronounceText(Input(s), env.gtts)
    case Raised(e) => Raised(e)
    case Done(audioFile) => Done(Turn(Respond(s, "Pronunciation audio generated: " + audioFile), p))
  }

  /** The prompt `conversation_agent` sends to the language model. */
  function Prompt(level: Level, input: string): string
  {
    "Respond in German at " + level.Name() + " level to: " + input
  }

  /** Different levels or inputs give different prompts: the level's name is
      told apart by its first letter and the input is what follows. */
  lemma PromptInjective(l1: Level, i1: string, l2: Level, i2: string)
    requires Prompt(l1, i1) == Prompt(l2, i2)
    ensures l1 == l2 && i1 == i2
  {
    assert Prompt(l1, i1)[21] == l1.Name()[0];
    assert Prompt(l2, i2)[21] == l2.Name()[0];
    var n := |"Respond in German at " + l1.Name() + " level to: "|;
    assert Prompt(l1, i1)[n..] == i1;
    assert Prompt(l2, i2)[n..] == i2;
  }

  /** The prompt ends with the untouched input. */
  lemma PromptEndsWithInput(level: Level, input: string)
    ensures var pr := Prompt(level, input);
      |pr| >= |input| && pr[|pr| - |input|..] == input
  {
  }

  /** `conversation_agent`: asks the model to answer the last message at the
      level the tracker gives at call time, and appends the answer. */
  function ConversationAgent(s: State, p: UserProgress, env: Env): (r: Outcome<Turn>)
    requires |s.messages| > 0
    ensures r.Raised? <==> env.llm(Prompt(GetLevel(p), Input(s))).Raised?
    ensures r.Done? ==>
              && RepliedOnce(s, r.value.state)
              && Input(r.value.state) == env.llm(Prompt(GetLevel(p), Input(s))).value
              && r.value.progress == p
  {
    var level := GetLevel(p);
    var prompt := Prompt(level, Input(s));
    match env.llm(prompt)
    case Raised(e) => Raised(e)
    case Done(response) => Done(Turn(Respond(s, response), p))
  }

  /** Running the node of handler `h`. */
  function Handle(h: Handler, s: State, p: UserProgress, env: Env): Outcome<Turn>
    requires |s.messages| > 0
  {
    match h
    case Grammar => GrammarAgent(s, p, env)
    case Vocabulary => VocabularyAgent(s, p)
    case Pronunciation => PronunciationAgent(s, p, env)
    case Conversation => ConversationAgent(s, p, env)
  }

  // ---------------------------------------------------------------------------
  // Graph

  /** A compiled graph: its nodes, its entry node, and the path map of the
      entry node's conditional edge. */
  datatype Graph = Graph(nodes: set<string>, entry: string, edges: map<string, string>)

  const TeacherNode := "teacher_agent"

  /** `create_graph()`. */
  function CreateGraph(): Graph
  {
    Graph(
      {TeacherNode, "grammar_agent", "vocabulary_agent", "pronunciation_agent", "conversation_agent"},
      TeacherNode,
      map[
        "grammar_agent" := "grammar_agent",
        "vocabulary_agent" := "vocabulary_agent",
        "pronunciation_agent" := "pronunciation_agent",
        "conversation_agent" := "conversation_agent",
        End := End])
  }

  /** The graph enters at the teacher, and its conditional edge sends every
      handler name to the node of the same name (and END to END). */
  lemma GraphShape()
    ensures CreateGraph().entry == TeacherNode && TeacherNode in CreateGraph().nodes
    ensures forall name :: name in CreateGraph().edges ==> CreateGraph().edges[name] == name
    ensures forall h: Handler :: h.NodeName() in CreateGraph().edges && h.NodeName() in CreateGraph().nodes
    ensures forall name :: name in CreateGraph().edges ==> name == End || HandlerNamed(name).Some?
  {
  }

  /** One run of the compiled graph on `s`: the entry node, then the node the
      conditional edge picks for `next`; handler nodes end in END. */
  function RunGraph(s: State, p: UserProgress, env: Env): Outcome<Turn>
    requires |s.messages| > 0
  {
    var g := CreateGraph();
    var routed := TeacherAgent(s);
    GraphShape();
    var target := g.edges[routed.next];
    match HandlerNamed(target)
    case Some(h) => Handle(h, routed, p, env)
    case None => Done(Turn(routed, p))
  }

  /** The graph runs exactly the handler the teacher chose, on the unchanged
      messages. */
  lemma RunGraphDispatches(s: State, p: UserProgress, env: Env)
    requires |s.messages| > 0
    ensures RunGraph(s, p, env) == Handle(Route(Input(s)), TeacherAgent(s), p, env)
  {
    GraphShape();
  }

  /** Whether the engine call of handler `h` raises for input `input`. */
  predicate EngineRaises(h: Handler, input: string, p: UserProgress, env: Env)
  {
    match h
    case Grammar => env.languageTool(input).Raised?
    case Vocabulary => false
    case Pronunciation => env.gtts(input).Raised?
    case Conversation => env.llm(Prompt(GetLevel(p), input)).Raised?
  }

  /** A turn appends exactly one AI reply and ends in END unless the chosen
      handler's engine raises (the vocabulary handler never raises after
      routing); only a graded grammar turn changes the tracker, adding one
      question, and correct <= total is kept. */
  lemma TurnContract(s: State, p: UserProgress, env: Env)
    requires |s.messages| > 0
    ensures var r, h := RunGraph(s, p, env), Route(Input(s));
      && (r.Raised? <==> EngineRaises(h, Input(s), p, env))
      && (r.Done? ==> RepliedOnce(s, r.value.state))
      && (r.Done? && h == Grammar ==> r.value.progress.totalQuestions == p.totalQuestions + 1)
      && (r.Done? && h != Grammar ==> r.value.progress == p)
      && (r.Done? && p.Valid() ==> r.value.progress.Valid())
  {
    RunGraphDispatches(s, p, env);
    var input := Input(s);
    if Route(input) == Vocabulary {
      VocabularyInputHasWord(input);
    }
  }

  /** A text routed to the vocabulary handler holds "vocabulary" or "word", so
      it has a last token and `split()[-1]` cannot raise. */
  lemma VocabularyInputHasWord(input: string)
    requires Route(input) == Vocabulary
    ensures LastWord(input).Some?
  {
    var low := Lower(input);
    var i, kw;
    if Contains(low, "vocabulary") {
      i :| 0 <= i <= |low| - 10 && OccursAt(low, "vocabulary", i);
      kw := "vocabulary";
    } else {
      i :| 0 <= i <= |low| - 4 && OccursAt(low, "word", i);
      kw := "word";
    }
    OccursAtChars(low, kw, i);
    assert low[i] == kw[0];
    assert !IsPySpace(input[i]);
  }

  // ---------------------------------------------------------------------------
  // Turns as the chat endpoint drives them

  /** The state the chat endpoint starts the graph with: one human message. */
  function InitialState(message: string): State
  {
    State([Message(Human, message)], "")
  }

  /** One chat message through the graph. */
  function ProcessMessage(message: string, p: UserProgress, env: Env): (r: Outcome<Turn>)
    ensures r.Done? ==> |r.value.state.messages| == 2
                        && r.value.state.messages[0] == Message(Human, message)
                        && r.value.state.messages[1].role == Ai
  {
    TurnContract(InitialState(message), p, env);
    RunGraph(InitialState(message), p, env)
  }

  /** One request to the chat endpoint: the message, and the engines as they
      answer during that request. The model samples at temperature 0.7, so
      the same text may get a different reply on another request. */
  datatype Request = Request(message: string, env: Env)

  /** A series of chat requests sharing one tracker; a turn that raises leaves
      the tracker as it was, since every raising call precedes `update`. */
  function Session(p: UserProgress, requests: seq<Request>): UserProgress
    decreases |requests|
  {
    if |requests| == 0 then p
    else
      var r := ProcessMessage(requests[0].message, p, requests[0].env);
      Session(if r.Done? then r.value.progress else p, requests[1..])
  }

  /** The requests of a series that are graded: routed to the grammar handler
      with LanguageTool answering. */
  function Graded(requests: seq<Request>): (n: nat)
    ensures n <= |requests|
  {
    if |requests| == 0 then 0
    else
      var q := requests[0];
      (if Route(q.message) == Grammar && q.env.languageTool(q.message).Done? then 1 else 0)
      + Graded(requests[1..])
  }

  /** Over any series, the tracker counts exactly the graded requests, and
      correct <= total holds throughout when it held at the start. */
  lemma {:induction false} SessionCounts(p: UserProgress, requests: seq<Request>)
    decreases |requests|
    ensures Session(p, requests).totalQuestions == p.totalQuestions + Graded(requests)
    ensures p.Valid() ==> Session(p, requests).Valid()
  {
    if |requests| > 0 {
      var q := requests[0];
      var s := InitialState(q.message);
      TurnContract(s, p, q.env);
      assert Input(s) == q.message;
      var r := ProcessMessage(q.message, p, q.env);
      SessionCounts(if r.Done? then r.value.progress else p, requests[1..]);
    }
  }

  /** A series of requests adds at most one question per request. */
  lemma SessionBound(p: UserProgress, requests: seq<Request>)
    ensures Session(p, requests).totalQuestions <= p.totalQuestions + |requests|
  {
    SessionCounts(p, requests);
  }
}
