/**
 * The `help` command for one named command: the entry text with its example
 * section, and the addenda that flag attachments, admin rights and
 * experimental status. The entry lookup and the usage statistics are outside
 * this model; the lookup's answer is an input.
 */
module Help {
  import opened Wrappers
  import opened JsStrings
  import opened Chat

  /** `info.example`: an array of examples or a single example string. */
  datatype Example = Examples(items: seq<string>) | Example(text: string)

  /** The fields of a command's help entry that the help text uses. */
  datatype HelpInfo = HelpInfo(
    prettyName: string,
    description: string,
    syntax: string,
    example: Example,
    attachments: bool,
    sudo: bool,
    experimental: bool
  )

  /** What `getHelpEntry` answers for a known command: its key and its entry. */
  datatype HelpEntry = HelpEntry(key: string, info: HelpInfo)

  /** Each example preceded by the trigger word. */
  function Prefixed(trigger: string, items: seq<string>): (r: seq<string>)
    ensures |r| == |items|
    ensures forall i :: 0 <= i < |items| ==> r[i] == trigger + " " + items[i]
  {
    seq(|items|, i requires 0 <= i < |items| => trigger + " " + items[i])
  }

  /** The example header and body, or None when the entry shows no example section. */
  function ExampleSection(trigger: string, ex: Example): (r: Option<(string, string)>)
    ensures ex.Examples? ==> r.Some? && r.value.0 == "Examples:\n"
    ensures ex.Example? ==> (r.None? <==> ex.text == "")
    ensures ex.Example? && ex.text != "" ==> r == Some(("Example: ", trigger + " " + ex.text))
  {
    match ex
    case Examples(items) => Some(("Examples:\n", Join(Prefixed(trigger, items), "\n")))
    case Example(text) => if |text| > 0 then Some(("Example: ", trigger + " " + text)) else None
  }

  /** An array of examples is shown one per line, each behind the trigger word. */
  lemma ExampleLines(trigger: string, items: seq<string>)
    requires items != []
    requires '\n' !in trigger
    requires forall i :: 0 <= i < |items| ==> '\n' !in items[i]
    ensures Split(ExampleSection(trigger, Examples(items)).value.1, "\n") == Prefixed(trigger, items)
  {
    var lines := Prefixed(trigger, items);
    forall i | 0 <= i < |lines| ensures '\n' !in lines[i] {
      assert lines[i] == trigger + " " + items[i];
    }
    SplitJoin(lines, '\n');
  }

  /** The entry text up to and including the syntax line. */
  function Head(trigger: string, info: HelpInfo): string {
    "Entry for command \"" + info.prettyName + "\":\n" + info.description + "\n\nSyntax: " + trigger + " " + info.syntax
  }

  /** `helpMsg`: the head, then the example section when there is one. */
  function HelpMessage(trigger: string, info: HelpInfo): (r: string)
    ensures |Head(trigger, info)| <= |r| && r[..|Head(trigger, info)|] == Head(trigger, info)
    ensures |r| == |Head(trigger, info)| <==> ExampleSection(trigger, info.example).None?
    ensures ExampleSection(trigger, info.example).Some? ==>
              r[|Head(trigger, info)|..] == "\n\n" + ExampleSection(trigger, info.example).value.0
                                                   + ExampleSection(trigger, info.example).value.1
  {
    var head := Head(trigger, info);
    match ExampleSection(trigger, info.example)
    case Some(section) => head + ("\n\n" + section.0 + section.1)
    case None => head
  }

  const AttachmentsNote := "\n\n(This command accepts attachments)"
  const AdminNote := "\n\n(This command requires admin privileges)"
  const ExperimentalNote := "\n\n(This command is experimental)"

  /** The notes whose flags are set, in the order given. */
  function Notes(n1: string, n2: string, n3: string, a: bool, b: bool, c: bool): string {
    (if a then n1 else "") + (if b then n2 else "") + (if c then n3 else "")
  }

  /** `addenda`: one note per flag that is set, always in the order attachments, admin, experimental. */
  function Addenda(info: HelpInfo): string {
    Notes(AttachmentsNote, AdminNote, ExperimentalNote, info.attachments, info.sudo, info.experimental)
  }

  /** Whether s starts with the note; the rest of s after it if so. */
  function Strip(note: string, s: string): (bool, string) {
    if |note| <= |s| && s[..|note|] == note then (true, s[|note|..]) else (false, s)
  }

  /** Reads three flags back off a text, expecting the notes in their fixed order. */
  function ReadNotes(n1: string, n2: string, n3: string, s: string): (bool, bool, bool) {
    var (a, s1) := Strip(n1, s);
    var (b, s2) := Strip(n2, s1);
    (a, b, s2 == n3)
  }

  /** Reads the three flags back off an addenda text. */
  function ReadAddenda(s: string): (flags: (bool, bool, bool)) {
    ReadNotes(AttachmentsNote, AdminNote, ExperimentalNote, s)
  }

  /** The addenda name exactly the flags that are set: reading them back gives the three flags. */
  lemma AddendaRoundTrip(info: HelpInfo)
    ensures ReadAddenda(Addenda(info)) == (info.attachments, info.sudo, info.experimental)
  {
    // the notes differ at index 16, right after "\n\n(This command "
    assert AttachmentsNote[16] == 'a' && AdminNote[16] == 'r' && ExperimentalNote[16] == 'i';
    NotesRoundTrip(AttachmentsNote, AdminNote, ExperimentalNote, info.attachments, info.sudo, info.experimental);
  }

  /** Notes that differ at index 16 are read back as the flags that put them there. */
  lemma NotesRoundTrip(n1: string, n2: string, n3: string, a: bool, b: bool, c: bool)
    requires |n1| > 16 && |n2| > 16 && |n3| > 16
    requires n1[16] != n2[16] && n1[16] != n3[16] && n2[16] != n3[16]
    ensures ReadNotes(n1, n2, n3, Notes(n1, n2, n3, a, b, c)) == (a, b, c)
  {
    var last := if c then n3 else "";
    var rest := (if b then n2 else "") + last;
    if b { StripThen(n2, last); } else { StripMissing(n2, last); }
    if a { StripThen(n1, rest); } else { StripMissing(n1, rest); }
  }

  /** A note followed by more text is stripped off it. */
  lemma StripThen(note: string, t: string)
    ensures Strip(note, note + t) == (true, t)
    ensures |note| > 16 ==> (note + t)[16] == note[16]
  {
    assert (note + t)[..|note|] == note;
    assert (note + t)[|note|..] == t;
  }

  /** A text that is empty or differs from the note at index 16 keeps it. */
  lemma StripMissing(note: string, s: string)
    requires |note| > 16
    requires s == [] || (|s| > 16 && s[16] != note[16])
    ensures Strip(note, s) == (false, s)
  {
    if |note| <= |s| {
      assert s[..|note|][16] == s[16];
    }
  }

  /**
   * `help <command>` for one command: the trimmed, lower-cased argument is
   * looked up (`entry` is the answer); an empty argument asks for the overview
   * of all commands.
   */
  function HelpCommand(threadId: string, cmatch: Captures, trigger: string, entry: Option<HelpEntry>): (r: seq<Effect>)
    ensures |r| == 1
    ensures r[0].HelpOverview? <==> !Truthy(Cap(cmatch, 1)) || Trim(Cap(cmatch, 1).value) == ""
    ensures r[0].ShowHelp? <==> !r[0].HelpOverview? && entry.Some?
    ensures r[0].ShowHelp? ==> r[0] == ShowHelp(entry.value.key, HelpMessage(trigger, entry.value.info),
                                                Addenda(entry.value.info), threadId)
    ensures r[0].SendError? <==> !r[0].HelpOverview? && entry.None?
    ensures r[0].HelpOverview? ==> r[0] == HelpOverview(threadId)
    ensures r[0].SendError? ==> r[0] == SendError("Help entry not found for \"" + ToLower(Trim(Cap(cmatch, 1).value)) + "\"", Some(threadId))
  {
    var input := if Truthy(Cap(cmatch, 1)) then ToLower(Trim(Cap(cmatch, 1).value)) else "";
    if |input| > 0 then
      match entry
      case Some(e) => [ShowHelp(e.key, HelpMessage(trigger, e.info), Addenda(e.info), threadId)]
      case None => [SendError("Help entry not found for \"" + input + "\"", Some(threadId))]
    else
      [HelpOverview(threadId)]
  }
}
