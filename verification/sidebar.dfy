/** The text Frontend/src/components/Sidebar.js shows: one preview line per
    history entry (role label, content cut at 30 characters), a placeholder for
    an empty history, and the theme button's label. */
module Sidebar {
  import opened App

  /** What the history list displays. */
  datatype View = Placeholder(text: string) | Items(previews: seq<string>)

  const PreviewLength := 30

  /** `msg.role === 'You' ? 'You: ' : 'Teacher: '`. */
  function Label(role: string): string
  {
    if role == "You" then "You: " else "Teacher: "
  }

  /** The label, `content.slice(0, 30)`, and "..." when the content is longer. */
  function Preview(e: Entry): string
  {
    var shown := if |e.content| <= PreviewLength then e.content else e.content[..PreviewLength];
    Label(e.role) + shown + (if |e.content| > PreviewLength then "..." else "")
  }

  /** The history list. */
  function Render(history: seq<Entry>): (v: View)
    ensures |history| == 0 <==> v == Placeholder("No history yet.")
    ensures v.Items? ==> |v.previews| == |history|
    ensures v.Items? ==> forall k :: 0 <= k < |history| ==> v.previews[k] == Preview(history[k])
  {
    if |history| == 0 then Placeholder("No history yet.")
    else Items(seq(|history|, k requires 0 <= k < |history| => Preview(history[k])))
  }

  /** "You: " labels exactly the role "You"; every other role reads "Teacher: ".
      Short content is shown whole; long content is cut to its first 30
      characters followed by "...". */
  lemma PreviewShape(e: Entry)
    ensures Label(e.role) == "You: " <==> e.role == "You"
    ensures |e.content| <= 30 ==> Preview(e) == Label(e.role) + e.content
    ensures |e.content| > 30 ==> Preview(e) == Label(e.role) + e.content[..30] + "..."
    ensures |Preview(e)| <= |Label(e.role)| + 33
  {
  }

  /** An entry read back from a stored line previews as that very line when
      its text fits, and as the line's first characters plus "..." otherwise. */
  lemma PreviewOfStoredLine(message: string, reply: string)
    ensures var line := "You: " + message;
      Preview(ParseEntry(line)) == if |message| <= 30 then line else line[..35] + "..."
    ensures var line := "Teacher: " + reply;
      Preview(ParseEntry(line)) == if |reply| <= 30 then line else line[..39] + "..."
  {
    StoredPrefixesRoundTrip(message, reply);
    if |message| > 30 {
      assert ("You: " + message)[..35] == "You: " + message[..30];
    }
    if |reply| > 30 {
      assert ("Teacher: " + reply)[..39] == "Teacher: " + reply[..30];
    }
  }

  /** A send that goes through adds exactly two previews, the message's first. */
  lemma SendAddsTwoPreviews(history: seq<Entry>, message: string, answer: ChatResponse)
    requires exists k :: 0 <= k < |message| && !Text.IsJsSpace(message[k])
    ensures var v := Render(HandleSend(history, message, answer));
      && v.Items?
      && |v.previews| == |history| + 2
      && v.previews[|history|] == Preview(Entry("You", message))
  {
    SendEffect(history, message, answer);
  }

  /** `Switch to {theme === 'dark' ? 'Light' : 'Dark'} Mode`. */
  function ThemeButton(theme: string): string
  {
    "Switch to " + (if theme == "dark" then "Light" else "Dark") + " Mode"
  }

  /** The button offers the theme the toggle would switch to. */
  lemma ThemeButtonOffersToggle(theme: string)
    ensures ThemeButton(theme) == "Switch to Light Mode" <==> theme == "dark"
    ensures ThemeButton(theme) == "Switch to Dark Mode" <==> theme != "dark"
    ensures ThemeButton(theme) == "Switch to Light Mode" <==> ToggleTheme(theme) == "light"
  {
    assert "Switch to Light Mode"[10] != "Switch to Dark Mode"[10];
  }
}
