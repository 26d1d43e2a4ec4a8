/** Backend/app_all_code_together.py carries its own copy of the tools, the
    progress tracker, the handlers and the graph. This module follows that
    copy's statements one by one, as imperative methods, and proves that each
    computes exactly what the package model of Backend/app computes. */
module AllInOne {
  import opened Outcomes
  import opened Text
  import opened Difficulty
  import Tools
  import opened Agents

  /** `check_grammar`: the report built by a list comprehension and a join. */
  method CheckGrammar(matches: seq<Tools.GrammarMatch>) returns (r: string)
    ensures r == Tools.CheckGrammar(matches)
  {
    if |matches| == 0 {
      return "No grammar errors found!";
    }
    var corrections: seq<string> := [];
    var i := 0;
    while i < |matches|
      invariant 0 <= i <= |matches|
      invariant |corrections| == i
      invariant forall k :: 0 <= k < i ==> corrections[k] == Tools.CorrectionLine(matches[k])
    {
      var m := matches[i];
      corrections := corrections + ["Error: " + m.ruleId + " - " + m.message];
      i := i + 1;
    }
    assert corrections == Tools.CorrectionLines(matches);
    r := Join(corrections, "\n");
  }

  /** `define_word`: a lookup in a freshly built mock dictionary. */
  method DefineWord(word: string) returns (r: string)
    ensures r == Tools.DefineWord(word)
  {
    var mockDefinitions := map["Haus" := "house", "Auto" := "car", "lernen" := "to learn"];
    if word in mockDefinitions {
      r := mockDefinitions[word];
    } else {
      r := "No definition found for '" + word + "'. Try another word!";
    }
  }

  /** `pronounce_text`: gTTS writes the file, then the fixed URL is returned. */
  method PronounceText(text: string, speech: string -> Outcome<()>) returns (r: Outcome<string>)
    ensures r == Tools.PronounceText(text, speech)
  {
    var saved := speech(text);
    if saved.Raised? {
      return Raised(saved.error);
    }
    r := Done("/static/pronunciation.mp3");
  }

  /** `UserProgress.update`. */
  method Update(p: UserProgress, isCorrect: bool) returns (r: UserProgress)
    ensures r == Difficulty.Update(p, isCorrect)
  {
    var correctAnswers, totalQuestions := p.correctAnswers, p.totalQuestions;
    totalQuestions := totalQuestions + 1;
    if isCorrect {
      correctAnswers := correctAnswers + 1;
    }
    r := UserProgress(correctAnswers, totalQuestions);
  }

  /** `UserProgress.get_level`, returning the tier's name. */
  method GetLevel(p: UserProgress) returns (level: string)
    ensures level == Difficulty.GetLevel(p).Name()
  {
    var accuracy: real :=
      if p.totalQuestions > 0 then p.correctAnswers as real / p.totalQuestions as real else 0.0;
    if accuracy > 0.8 {
      return "advanced";
    } else if accuracy > 0.5 {
      return "intermediate";
    }
    return "beginner";
  }

  /** `teacher_agent`. */
  method TeacherAgent(s: State) returns (r: State)
    requires |s.messages| > 0
    ensures r == Agents.TeacherAgent(s)
  {
    var userInput := Lower(s.messages[|s.messages| - 1].content);
    r := s;
    if Contains(userInput, "grammar") {
      r := r.(next := "grammar_agent");
    } else if Contains(userInput, "vocabulary") || Contains(userInput, "word") {
      r := r.(next := "vocabulary_agent");
    } else if Contains(userInput, "pronounce") || Contains(userInput, "pronunciation") {
      r := r.(next := "pronunciation_agent");
    } else {
      r := r.(next := "conversation_agent");
    }
  }

  /** `grammar_agent`. */
  method GrammarAgent(s: State, p: UserProgress, env: Env) returns (r: Outcome<Turn>)
    requires |s.messages| > 0
    ensures r == Agents.GrammarAgent(s, p, env)
  {
    var userInput := s.messages[|s.messages| - 1].content;
    var checked := env.languageTool(userInput);
    if checked.Raised? {
      return Raised(checked.error);
    }
    var response := CheckGrammar(checked.value);
    var state := s.(messages := s.messages + [Message(Ai, response)]);
    var progress := Update(p, Contains(response, "No grammar errors"));
    state := state.(next := End);
    r := Done(Turn(state, progress));
  }

  /** `vocabulary_agent`. */
  method VocabularyAgent(s: State, p: UserProgress) returns (r: Outcome<Turn>)
    requires |s.messages| > 0
    ensures r == Agents.VocabularyAgent(s, p)
  {
    var userInput := s.messages[|s.messages| - 1].content;
    var words := Words(userInput);
    assert userInput == Input(s);
    if |words| == 0 {
      assert LastWord(userInput).None?;
      return Raised("IndexError: list index out of range");
    }
    var word := words[|words| - 1];
    assert LastWord(userInput) == Some(word);
    var response := DefineWord(word);
    var state := s.(messages := s.messages + [Message(Ai, response)]);
    state := state.(next := End);
    r := Done(Turn(state, p));
  }

  /** `pronunciation_agent`. */
  method PronunciationAgent(s: State, p: UserProgress, env: Env) returns (r: Outcome<Turn>)
    requires |s.messages| > 0
    ensures r == Agents.PronunciationAgent(s, p, env)
  {
    var userInput := s.messages[|s.messages| - 1].content;
    var audioFile := PronounceText(userInput, env.gtts);
    if audioFile.Raised? {
      return Raised(audioFile.error);
    }
    var response := "Pronunciation audio generated: " + audioFile.value;
    var state := s.(messages := s.messages + [Message(Ai, response)]);
    state := state.(next := End);
    r := Done(Turn(state, p));
  }

  /** `conversation_agent`, with `model.invoke` as the language model. */
  method ConversationAgent(s: State, p: UserProgress, env: Env) returns (r: Outcome<Turn>)
    requires |s.messages| > 0
    ensures r == Agents.ConversationAgent(s, p, env)
  {
    var userInput := s.messages[|s.messages| - 1].content;
    var level := GetLevel(p);
    var prompt := "Respond in German at " + level + " level to: " + userInput;
    var answer := env.llm(prompt);
    if answer.Raised? {
      return Raised(answer.error);
    }
    var state := s.(messages := s.messages + [Message(Ai, answer.value)]);
    state := state.(next := End);
    r := Done(Turn(state, p));
  }

  /** The module-level graph: entry `teacher_agent`, then the node named by the
      conditional edge's path map. */
  method RunGraph(s: State, p: UserProgress, env: Env) returns (r: Outcome<Turn>)
    requires |s.messages| > 0
    ensures r == Agents.RunGraph(s, p, env)
  {
    var edges := map[
      "grammar_agent" := "grammar_agent",
      "vocabulary_agent" := "vocabulary_agent",
      "pronunciation_agent" := "pronunciation_agent",
      "conversation_agent" := "conversation_agent",
      End := End];
    var state := TeacherAgent(s);
    RunGraphDispatches(s, p, env);
    var target := edges[state.next];
    if target == "grammar_agent" {
      r := GrammarAgent(state, p, env);
    } else if target == "vocabulary_agent" {
      r := VocabularyAgent(state, p);
    } else if target == "pronunciation_agent" {
      r := PronunciationAgent(state, p, env);
    } else if target == "conversation_agent" {
      r := ConversationAgent(state, p, env);
    } else {
      r := Done(Turn(state, p));
    }
  }
}
