/** The tool functions of Backend/app/tools.py with their external engines
    (LanguageTool, gTTS) replaced by their observable results. */
module Tools {
  import opened Text
  import opened Outcomes

  // ---------------------------------------------------------------------------
  // check_grammar

  /** One LanguageTool match, as far as the report uses it. */
  datatype GrammarMatch = GrammarMatch(ruleId: string, message: string)

  /** The report for a text without any match. */
  const NoErrorsReport := "No grammar errors found!"

  /** The phrase the grammar handler looks for in a report. */
  const NoErrorsPhrase := "No grammar errors"

  /** `f"Error: {match.ruleId} - {match.message}"`. */
  function CorrectionLine(m: GrammarMatch): string
  {
    "Error: " + m.ruleId + " - " + m.message
  }

  function CorrectionLines(matches: seq<GrammarMatch>): (lines: seq<string>)
    ensures |lines| == |matches|
    ensures forall k :: 0 <= k < |matches| ==> lines[k] == CorrectionLine(matches[k])
  {
    seq(|matches|, k requires 0 <= k < |matches| => CorrectionLine(matches[k]))
  }

  /** `check_grammar(text)` given the matches LanguageTool reports for `text`:
      the fixed report when there are none, else the correction lines joined
      by newlines. */
  function CheckGrammar(matches: seq<GrammarMatch>): (r: string)
    ensures |matches| == 0 <==> r == NoErrorsReport
    ensures |matches| > 0 ==> |r| >= 7 && r[..7] == "Error: "
  {
    if |matches| == 0 then NoErrorsReport
    else
      var lines := CorrectionLines(matches);
      assert |lines| > 0 && lines[0][..7] == "Error: ";
      JoinStartsWithFirst(lines, "\n");
      var r := Join(lines, "\n");
      assert r[..7] == r[..|lines[0]|][..7];
      assert NoErrorsReport[..7] != "Error: " by {
        assert NoErrorsReport[0] == 'N';
      }
      r
  }

  lemma {:induction false} JoinStartsWithFirst(parts: seq<string>, sep: string)
    requires |parts| > 0
    ensures |Join(parts, sep)| >= |parts[0]| && Join(parts, sep)[..|parts[0]|] == parts[0]
  {
    if |parts| > 1 {
      assert Join(parts, sep) == parts[0] + (sep + Join(parts[1..], sep));
    }
  }

  /** No line break in a match's rule id or message. */
  predicate SingleLine(m: GrammarMatch)
  {
    '\n' !in m.ruleId && '\n' !in m.message
  }

  /** When no match carries a line break, the report has exactly one line per
      match, in match order: splitting it on newlines gives the lines back. */
  lemma ReportLines(matches: seq<GrammarMatch>)
    requires |matches| > 0
    requires forall k :: 0 <= k < |matches| ==> SingleLine(matches[k])
    ensures Split(CheckGrammar(matches), "\n") == CorrectionLines(matches)
  {
    var lines := CorrectionLines(matches);
    forall k | 0 <= k < |lines|
      ensures '\n' !in lines[k]
    {
      assert lines[k] == "Error: " + matches[k].ruleId + " - " + matches[k].message;
    }
    SplitJoin(lines, "\n");
  }

  /** A mention inside the rule id or the message shows up in the line. */
  lemma MentionShowsInLine(m: GrammarMatch)
    requires Contains(m.ruleId, NoErrorsPhrase) || Contains(m.message, NoErrorsPhrase)
    ensures Contains(CorrectionLine(m), NoErrorsPhrase)
  {
    var p := NoErrorsPhrase;
    ContainsConcat("Error: ", m.ruleId, p);
    ContainsConcat(" - ", m.message, p);
    ContainsConcat("Error: " + m.ruleId, " - " + m.message, p);
    assert CorrectionLine(m) == ("Error: " + m.ruleId) + (" - " + m.message);
  }

  /** Where the parts of a correction line sit, character by character. */
  lemma LineLayout(m: GrammarMatch)
    ensures var line, idEnd := CorrectionLine(m), 7 + |m.ruleId|;
      && |line| == idEnd + 3 + |m.message|
      && (forall k :: 0 <= k < 7 ==> line[k] != 'N')
      && line[idEnd] == ' ' && line[idEnd + 1] == '-' && line[idEnd + 2] == ' '
      && (forall k :: 0 <= k < |m.ruleId| ==> line[7 + k] == m.ruleId[k])
      && (forall k :: 0 <= k < |m.message| ==> line[idEnd + 3 + k] == m.message[k])
  {
    var line := CorrectionLine(m);
    assert line == "Error: " + m.ruleId + " - " + m.message;
    assert forall k :: 0 <= k < 7 ==> line[k] == "Error: "[k];
  }

  lemma PhraseLayout()
    ensures |NoErrorsPhrase| == 17 && NoErrorsPhrase[0] == 'N' && NoErrorsPhrase[16] == 's'
    ensures forall j :: 0 <= j < 17 ==> NoErrorsPhrase[j] != '-'
  {
  }

  /** The phrase cannot straddle the fixed parts of a line: it starts with 'N',
      ends with 's' and has no '-', so it lies inside the rule id or the message. */
  lemma LineShowsMention(m: GrammarMatch)
    requires Contains(CorrectionLine(m), NoErrorsPhrase)
    ensures Contains(m.ruleId, NoErrorsPhrase) || Contains(m.message, NoErrorsPhrase)
  {
    var line, p := CorrectionLine(m), NoErrorsPhrase;
    LineLayout(m);
    PhraseLayout();
    var i :| 0 <= i <= |line| - |p| && OccursAt(line, p, i);
    OccursAtChars(line, p, i);
    NeedleInLayout(line, m.ruleId, m.message, p, i);
    if OccursAt(m.ruleId, p, i - 7) {
      assert Contains(m.ruleId, p);
    } else {
      assert Contains(m.message, p);
    }
  }

  /** An occurrence of a needle that starts with a character absent from the
      first seven positions, ends with a non-blank, and has no '-', in a line
      laid out as seven fixed characters, `id`, " - ", `msg`. */
  lemma NeedleInLayout(line: string, id: string, msg: string, p: string, i: int)
    requires |line| == 10 + |id| + |msg|
    requires |p| >= 2 && p[|p| - 1] != ' ' && forall j :: 0 <= j < |p| ==> p[j] != '-'
    requires forall k :: 0 <= k < 7 ==> line[k] != p[0]
    requires p[0] != ' '
    requires line[7 + |id|] == ' ' && line[8 + |id|] == '-' && line[9 + |id|] == ' '
    requires forall k :: 0 <= k < |id| ==> line[7 + k] == id[k]
    requires forall k :: 0 <= k < |msg| ==> line[10 + |id| + k] == msg[k]
    requires 0 <= i && i + |p| <= |line|
    requires forall k :: 0 <= k < |p| ==> p[k] == line[i + k]
    ensures OccursAt(id, p, i - 7) || OccursAt(msg, p, i - 10 - |id|)
  {
    var idEnd := 7 + |id|;
    forall j | i <= j < i + |p|
      ensures line[j] == p[j - i] && line[j] != '-'
    {
      var k := j - i;
      assert line[i + k] == p[k];
    }
    assert line[i] == p[0];
    assert i >= 7;
    assert i < idEnd || i >= idEnd + 3;
    if i < idEnd {
      assert line[idEnd + 1] == '-';
      assert i + |p| <= idEnd + 1;
      assert line[i + |p| - 1] != ' ';
      assert i + |p| <= idEnd;
      assert id[i - 7..i - 7 + |p|] == p;
    } else {
      assert msg[i - idEnd - 3..i - idEnd - 3 + |p|] == p;
    }
  }

  /** Some match mentions the no-errors phrase in its rule id or message. */
  predicate MentionsNoErrors(matches: seq<GrammarMatch>)
  {
    exists k :: 0 <= k < |matches| &&
      (Contains(matches[k].ruleId, NoErrorsPhrase) || Contains(matches[k].message, NoErrorsPhrase))
  }

  /** The handler's correctness signal `"No grammar errors" in report` holds
      exactly when there was no match or some match itself mentions the phrase. */
  lemma NoErrorsSignal(matches: seq<GrammarMatch>)
    ensures Contains(CheckGrammar(matches), NoErrorsPhrase) <==>
              |matches| == 0 || MentionsNoErrors(matches)
  {
    if |matches| == 0 {
      assert OccursAt(NoErrorsReport, NoErrorsPhrase, 0);
    } else {
      assert CheckGrammar(matches) == Join(CorrectionLines(matches), "\n");
      if MentionsNoErrors(matches) {
        MentionShowsInReport(matches);
      }
      if Contains(Join(CorrectionLines(matches), "\n"), NoErrorsPhrase) {
        ReportShowsMention(matches);
      }
    }
  }

  lemma MentionShowsInReport(matches: seq<GrammarMatch>)
    requires MentionsNoErrors(matches)
    ensures Contains(Join(CorrectionLines(matches), "\n"), NoErrorsPhrase)
  {
    var k :| 0 <= k < |matches| &&
      (Contains(matches[k].ruleId, NoErrorsPhrase) || Contains(matches[k].message, NoErrorsPhrase));
    MentionShowsInLine(matches[k]);
    ContainsJoinPart(CorrectionLines(matches), "\n", NoErrorsPhrase, k);
  }

  lemma ReportShowsMention(matches: seq<GrammarMatch>)
    requires |matches| > 0
    requires Contains(Join(CorrectionLines(matches), "\n"), NoErrorsPhrase)
    ensures MentionsNoErrors(matches)
  {
    var lines := CorrectionLines(matches);
    assert "\n"[0] !in NoErrorsPhrase;
    JoinOccurrenceInPart(lines, "\n", NoErrorsPhrase);
    var k :| 0 <= k < |lines| && Contains(lines[k], NoErrorsPhrase);
    LineShowsMention(matches[k]);
  }

  /** A match whose message quotes the phrase makes a report with errors read
      as correct. */
  lemma SignalWithErrors()
    ensures Contains(CheckGrammar([GrammarMatch("R", "No grammar errors here")]), NoErrorsPhrase)
  {
    var ms := [GrammarMatch("R", "No grammar errors here")];
    assert OccursAt(ms[0].message, NoErrorsPhrase, 0);
    assert MentionsNoErrors(ms);
    NoErrorsSignal(ms);
  }

  // ---------------------------------------------------------------------------
  // define_word

  /** The three-entry mock dictionary. */
  const MockDefinitions: map<string, string> :=
    map["Haus" := "house", "Auto" := "car", "lernen" := "to learn"]

  /** The reply for a word the dictionary lacks. */
  function NotFound(word: string): string
  {
    "No definition found for '" + word + "'. Try another word!"
  }

  /** `define_word(word)`: an exact, case-sensitive dictionary lookup. */
  function DefineWord(word: string): (r: string)
    ensures word in MockDefinitions ==> r in MockDefinitions.Values
  {
    if word in MockDefinitions then MockDefinitions[word] else NotFound(word)
  }

  /** The dictionary's three entries. */
  lemma DefineWordEntries()
    ensures DefineWord("Haus") == "house"
    ensures DefineWord("Auto") == "car"
    ensures DefineWord("lernen") == "to learn"
  {
    assert "Haus" in MockDefinitions && MockDefinitions["Haus"] == "house";
    assert "Auto" in MockDefinitions && MockDefinitions["Auto"] == "car";
    assert "lernen" in MockDefinitions && MockDefinitions["lernen"] == "to learn";
  }

  /** The lookup is case-sensitive: "haus" is missed and quoted back. */
  lemma DefineWordIsCaseSensitive()
    ensures DefineWord("haus") == "No definition found for 'haus'. Try another word!"
  {
    assert "haus" !in MockDefinitions by {
      assert "haus"[0] != "Haus"[0];
      assert "haus" != "Auto" && "haus" != "lernen";
    }
    assert NotFound("haus") == "No definition found for 'haus'. Try another word!";
  }

  /** A reply is a definition exactly when the word is a key, and a miss reply
      quotes the word verbatim, so it can be read back from the reply. */
  lemma DefineWordDistinguishesMisses(word: string)
    ensures DefineWord(word) in MockDefinitions.Values <==> word in MockDefinitions
    ensures word !in MockDefinitions ==>
              var r := DefineWord(word);
              && |r| == 45 + |word|
              && r[..25] == "No definition found for '"
              && r[25..|r| - 20] == word
              && r[|r| - 20..] == "'. Try another word!"
  {
    var r := NotFound(word);
    assert |r| == 45 + |word|;
    if word !in MockDefinitions {
      assert r[..25] == "No definition found for '";
      assert r[25..|r| - 20] == word;
      assert r[|r| - 20..] == "'. Try another word!";
      forall v | v in MockDefinitions.Values
        ensures |v| <= 8
      {
        var k :| k in MockDefinitions && MockDefinitions[k] == v;
      }
    }
  }

  // ---------------------------------------------------------------------------
  // pronounce_text

  /** The URL `pronounce_text` returns. */
  const AudioUrl := "/static/pronunciation.mp3"

  /** `pronounce_text(text)` given the outcome of gTTS writing the audio for
      `text`: the fixed URL, unless gTTS raised. */
  function PronounceText(text: string, speech: string -> Outcome<()>): (r: Outcome<string>)
    ensures r.Done? <==> speech(text).Done?
    ensures r.Done? ==> r.value == AudioUrl
  {
    match speech(text)
    case Raised(e) => Raised(e)
    case Done(_) => Done(AudioUrl)
  }
}
