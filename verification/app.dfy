/** The pure logic of Frontend/src/app.js: reading a stored history line back
    into a chat entry, the effect of sending a message on the message list, the
    audio trigger and the theme toggle, and how these meet the backend's turn. */
module App {
  import opened Text
  import opened Outcomes
  import Tools
  import Agents
  import Difficulty

  /** A chat entry as the page lists it; its timestamp is not modelled. */
  datatype Entry = Entry(role: string, content: string)

  const Separator := ": "

  // ---------------------------------------------------------------------------
  // History lines

  /** `const [role, ...contentParts] = item.message.split(": ")` followed by
      `contentParts.join(": ")`. */
  function ParseEntry(line: string): Entry
  {
    var parts := Split(line, Separator);
    Entry(parts[0], Join(parts[1..], Separator))
  }

  /** A line without ": " is all role and has empty content. */
  lemma ParseEntryWithoutSeparator(line: string)
    requires !Contains(line, Separator)
    ensures ParseEntry(line) == Entry(line, "")
  {
    FindIffContains(line, Separator);
    assert Split(line, Separator) == [line];
  }

  /** The role is the text before the first ": " and the content is all the
      rest, later ": " included. */
  lemma ParseEntryWithSeparator(line: string)
    requires Contains(line, Separator)
    ensures !Contains(ParseEntry(line).role, Separator)
    ensures line == ParseEntry(line).role + Separator + ParseEntry(line).content
  {
    FindIffContains(line, Separator);
    var i := FindFrom(line, Separator, 0).value;
    var rest := line[i + 2..];
    var parts := Split(line, Separator);
    assert parts == [line[..i]] + Split(rest, Separator);
    assert parts[1..] == Split(rest, Separator);
    JoinSplit(rest, Separator);
    assert ParseEntry(line) == Entry(line[..i], rest);
    assert line[i..i + 2] == Separator;
    assert line == line[..i] + Separator + rest;
  }

  /** In `role + ": " + content` with no ": " inside the role, no ": " starts
      within the role: one ending there would need the role's last character
      followed by ' ', but the next character is ':'. */
  lemma NoSeparatorWithinRole(role: string, content: string)
    requires !Contains(role, Separator)
    ensures forall j :: 0 <= j < |role| ==> !OccursAt(role + Separator + content, Separator, j)
  {
    var line := role + Separator + content;
    forall j | 0 <= j < |role|
      ensures !OccursAt(line, Separator, j)
    {
      if j + 2 <= |role| {
        assert line[j..j + 2] == role[j..j + 2];
        assert !OccursAt(role, Separator, j);
      } else {
        assert line[j + 1] == ':';
        assert Separator[1] == ' ';
        OccursAtChars(line, Separator, j);
      }
    }
  }

  /** A line written as `role + ": " + content`, with no ": " in the role, reads
      back as exactly that role and content. */
  lemma {:induction false} ParseStoredLine(role: string, content: string)
    requires !Contains(role, Separator)
    ensures ParseEntry(role + Separator + content) == Entry(role, content)
  {
    var line := role + Separator + content;
    assert OccursAt(line, Separator, |role|) by {
      assert line[|role|..|role| + 2] == Separator;
    }
    FindIffContains(line, Separator);
    var i := FindFrom(line, Separator, 0).value;
    NoSeparatorWithinRole(role, content);
    assert i == |role|;
    assert line[..i] == role;
    assert line[i + 2..] == content;
    JoinSplit(content, Separator);
  }

  /** A text without ':' holds no ": ". */
  lemma ColonFree(s: string)
    requires ':' !in s
    ensures !Contains(s, Separator)
  {
    forall j | 0 <= j <= |s| - 2
      ensures !OccursAt(s, Separator, j)
    {
      OccursAtChars(s, Separator, j);
      assert s[j] != ':';
    }
  }

  /** The backend stores "You: " + message and "Teacher: " + reply; reading the
      history gives back the roles and the texts unchanged. */
  lemma StoredPrefixesRoundTrip(message: string, reply: string)
    ensures ParseEntry("You: " + message) == Entry("You", message)
    ensures ParseEntry("Teacher: " + reply) == Entry("Teacher", reply)
  {
    ColonFree("You");
    ParseStoredLine("You", message);
    assert "You: " + message == "You" + Separator + message;
    ColonFree("Teacher");
    ParseStoredLine("Teacher", reply);
    assert "Teacher: " + reply == "Teacher" + Separator + reply;
  }

  // ---------------------------------------------------------------------------
  // Sending

  /** What the POST to /chat yields: the reply text, or a failed request. */
  datatype ChatResponse = Reply(response: string) | RequestFailed

  const RequestError := "Error processing your request."

  /** `handleSend(message)` on the message list. */
  function HandleSend(messages: seq<Entry>, message: string, answer: ChatResponse): seq<Entry>
  {
    if Trim(message) == "" then messages
    else
      var withUser := messages + [Entry("You", message)];
      match answer
      case Reply(response) => withUser + [Entry("Teacher", response)]
      case RequestFailed => withUser + [Entry("Teacher", RequestError)]
  }

  /** The message a send appends for the answer. */
  function TeacherEntry(answer: ChatResponse): Entry
  {
    Entry("Teacher", if answer.Reply? then answer.response else RequestError)
  }

  /** A send whose trimmed message is empty changes nothing. */
  lemma SendBlank(messages: seq<Entry>, message: string, answer: ChatResponse)
    requires Trim(message) == ""
    ensures HandleSend(messages, message, answer) == messages
  {
  }

  /** Any other send appends the user entry, then the Teacher entry. */
  lemma SendAppends(messages: seq<Entry>, message: string, answer: ChatResponse)
    requires Trim(message) != ""
    ensures HandleSend(messages, message, answer)
              == messages + [Entry("You", message), TeacherEntry(answer)]
  {
    var withUser := messages + [Entry("You", message)];
    assert withUser + [TeacherEntry(answer)] == messages + [Entry("You", message), TeacherEntry(answer)];
    match answer
    case Reply(response) =>
      assert HandleSend(messages, message, answer) == withUser + [TeacherEntry(answer)];
    case RequestFailed =>
      assert HandleSend(messages, message, answer) == withUser + [TeacherEntry(answer)];
  }

  /** A blank message changes nothing; any other appends the message as typed,
      then one Teacher entry holding the reply or the error text. */
  lemma SendEffect(messages: seq<Entry>, message: string, answer: ChatResponse)
    ensures (forall k :: 0 <= k < |message| ==> IsJsSpace(message[k])) ==>
              HandleSend(messages, message, answer) == messages
    ensures (exists k :: 0 <= k < |message| && !IsJsSpace(message[k])) ==>
              var r := HandleSend(messages, message, answer);
              && |r| == |messages| + 2
              && r[..|messages|] == messages
              && r[|messages|] == Entry("You", message)
              && r[|messages| + 1].role == "Teacher"
              && r[|messages| + 1].content == (if answer.Reply? then answer.response else RequestError)
  {
    TrimEmptyIffBlank(message);
    if Trim(message) == "" {
      SendBlank(messages, message, answer);
    } else {
      SendAppends(messages, message, answer);
      var r := messages + [Entry("You", message), TeacherEntry(answer)];
      assert r[..|messages|] == messages;
    }
  }

  /** Whether the page plays the pronunciation audio after a send. */
  predicate PlaysAudio(answer: ChatResponse)
  {
    answer.Reply? && Contains(answer.response, Tools.AudioUrl)
  }

  // ---------------------------------------------------------------------------
  // Meeting the backend

  /** The answer to a POST to /chat: the graph's reply, or a failed request when
      an exception escapes the turn (the server answers with an error status). */
  function ChatAnswer(message: string, p: Difficulty.UserProgress, env: Agents.Env): ChatResponse
  {
    match Agents.ProcessMessage(message, p, env)
    case Done(turn) => Reply(Agents.Input(turn.state))
    case Raised(_) => RequestFailed
  }

  /** A pronunciation turn that completes always makes the page play the audio. */
  lemma PronunciationPlaysAudio(message: string, p: Difficulty.UserProgress, env: Agents.Env)
    requires Agents.Route(message) == Agents.Pronunciation
    requires env.gtts(message).Done?
    ensures PlaysAudio(ChatAnswer(message, p, env))
  {
    var s := Agents.InitialState(message);
    Agents.TurnContract(s, p, env);
    Agents.RunGraphDispatches(s, p, env);
    assert Agents.Input(s) == message;
    var reply := Agents.PronunciationReply;
    assert reply[31..] == Tools.AudioUrl;
    assert OccursAt(reply, Tools.AudioUrl, 31);
  }

  /** After a successful send, reloading the history the backend stored gives
      back exactly the two entries the page appended. */
  lemma ReloadMatchesSend(messages: seq<Entry>, message: string, reply: string)
    requires exists k :: 0 <= k < |message| && !IsJsSpace(message[k])
    ensures HandleSend(messages, message, Reply(reply)) ==
              messages + [ParseEntry("You: " + message), ParseEntry("Teacher: " + reply)]
  {
    TrimEmptyIffBlank(message);
    SendAppends(messages, message, Reply(reply));
    StoredPrefixesRoundTrip(message, reply);
  }

  // ---------------------------------------------------------------------------
  // Theme

  /** `setTheme((prev) => (prev === "dark" ? "light" : "dark"))`. */
  function ToggleTheme(theme: string): (r: string)
    ensures r == "dark" || r == "light"
    ensures r != theme || (theme != "dark" && theme != "light")
  {
    if theme == "dark" then "light" else "dark"
  }

  /** Toggling twice restores either theme. */
  lemma ToggleTwice(theme: string)
    requires theme == "dark" || theme == "light"
    ensures ToggleTheme(ToggleTheme(theme)) == theme
  {
  }

  /** The theme state and whether the body carries the `light-theme` class. */
  datatype Page = Page(theme: string, lightThemeClass: bool)

  /** The page as it starts: dark, without the class. */
  const InitialPage := Page("dark", false)

  /** `toggleTheme()`: flips the theme and toggles the body class. */
  function Toggle(page: Page): Page
  {
    Page(ToggleTheme(page.theme), !page.lightThemeClass)
  }

  function ToggleTimes(page: Page, n: nat): Page
  {
    if n == 0 then page else Toggle(ToggleTimes(page, n - 1))
  }

  /** From the initial page, after any number of toggles, the body carries the
      class exactly when the theme is light, and the theme is dark exactly after
      an even number of toggles. */
  lemma {:induction false} TogglesStayInStep(n: nat)
    ensures var page := ToggleTimes(InitialPage, n);
      && (page.theme == "dark" || page.theme == "light")
      && (page.lightThemeClass <==> page.theme == "light")
      && (page.theme == "dark" <==> n % 2 == 0)
  {
    if n > 0 {
      TogglesStayInStep(n - 1);
    }
  }
}
