/**
 * Rhetorical-device practice: the catalogue of devices, the validation
 * that maps the names a user typed to their catalogue spelling, the line
 * scanner that turns a language model's answer into prompts, and the fixed
 * prompts used when there is no usable answer.
 *
 * The model's answer is an input (`Reply`); the request itself is not
 * modelled.
 */
module RhetoricalDevices {
  import opened Wrappers
  import Text
  import Exceptions

  /** The catalogue, in its declared order. */
  const DeviceNames: seq<string> := [
    "Alliteration", "Polyptoton", "Antithesis", "Merism", "Blazon", "Synaesthesia", "Aposiopesis",
    "Hyperbaton", "Anadiplosis", "Periodic Sentence", "Hypotaxis & Parataxis", "Diacope",
    "Rhetorical Question", "Hendiadys", "Parataxis", "Epistrophe", "Tricolon", "Epizeuxis", "Syllepsis",
    "Isocolon", "Enallage", "Meter", "Zeugma", "Paradox", "Chiasmus", "Assonance", "Fourteenth Rule",
    "Catachresis", "Litotes", "Metonymy & Synecdoche", "Transferred Epithets", "Pleonasm", "Epanalepsis",
    "Personification", "Hyperbole", "Adynaton", "Prolepsis", "Congeries", "Scesis Onomaton", "Anaphora"]

  /** The catalogue sorted by code point, as listed in the error message. */
  const SortedDeviceNames: seq<string> := [
    "Adynaton", "Alliteration", "Anadiplosis", "Anaphora", "Antithesis", "Aposiopesis", "Assonance",
    "Blazon", "Catachresis", "Chiasmus", "Congeries", "Diacope", "Enallage", "Epanalepsis", "Epistrophe",
    "Epizeuxis", "Fourteenth Rule", "Hendiadys", "Hyperbaton", "Hyperbole", "Hypotaxis & Parataxis",
    "Isocolon", "Litotes", "Merism", "Meter", "Metonymy & Synecdoche", "Paradox", "Parataxis",
    "Periodic Sentence", "Personification", "Pleonasm", "Polyptoton", "Prolepsis", "Rhetorical Question",
    "Scesis Onomaton", "Syllepsis", "Synaesthesia", "Transferred Epithets", "Tricolon", "Zeugma"]

  /** One practice prompt: its text, the devices it asks for, and optional example or hint lines. */
  datatype Prompt = Prompt(prompt: string, devices: seq<string>, examples: Option<string>)

  // ---------------------------------------------------------------------
  // validate_devices
  // ---------------------------------------------------------------------

  /** How a typed name is compared: stripped and lower-cased. */
  function Key(device: string): string
  {
    Text.Lower(Text.Strip(device))
  }

  /**
   * The lookup table from lower-cased name to catalogue name. It is built
   * by a comprehension, so of two names with the same lower-cased form the
   * later one wins.
   */
  function LowerMap(catalogue: seq<string>): (m: map<string, string>)
    ensures forall key :: key in m ==> m[key] in catalogue && Text.Lower(m[key]) == key
    ensures forall k :: k in catalogue ==> Text.Lower(k) in m
  {
    if catalogue == [] then map[]
    else
      var last := catalogue[|catalogue| - 1];
      assert catalogue == catalogue[..|catalogue| - 1] + [last];
      LowerMap(catalogue[..|catalogue| - 1])[Text.Lower(last) := last]
  }

  /**
   * The catalogue spelling of every recognised entry, in input order;
   * `key` is how a typed name is normalised before the lookup.
   */
  function Known(table: map<string, string>, key: string -> string, devices: seq<string>): (r: seq<string>)
    ensures forall k :: k in r ==> k in table.Values
  {
    if devices == [] then []
    else
      var init := Known(table, key, devices[..|devices| - 1]);
      var k := key(devices[|devices| - 1]);
      if k in table then init + [table[k]] else init
  }

  /** The entries, as typed, that match no catalogue name, in input order. */
  function Unknown(table: map<string, string>, key: string -> string, devices: seq<string>): seq<string>
  {
    if devices == [] then []
    else
      var init := Unknown(table, key, devices[..|devices| - 1]);
      if key(devices[|devices| - 1]) in table then init else init + [devices[|devices| - 1]]
  }

  /** No entry is unknown exactly when every entry, once normalised, names a device. */
  lemma {:induction false} UnknownEmptyIff(table: map<string, string>, key: string -> string, devices: seq<string>)
    ensures Unknown(table, key, devices) == [] <==> forall i :: 0 <= i < |devices| ==> key(devices[i]) in table
  {
    if devices != [] {
      var init := devices[..|devices| - 1];
      UnknownEmptyIff(table, key, init);
      assert forall i :: 0 <= i < |init| ==> init[i] == devices[i];
    }
  }

  /** When all entries are known, the result has one catalogue name per entry, at the entry's position. */
  lemma {:induction false} AllKnown(table: map<string, string>, key: string -> string, devices: seq<string>)
    requires Unknown(table, key, devices) == []
    ensures |Known(table, key, devices)| == |devices|
    ensures forall i :: 0 <= i < |devices| ==>
      key(devices[i]) in table && table[key(devices[i])] == Known(table, key, devices)[i]
  {
    if devices != [] {
      var init := devices[..|devices| - 1];
      assert key(devices[|devices| - 1]) in table;
      AllKnown(table, key, init);
      assert forall i :: 0 <= i < |init| ==> init[i] == devices[i];
    }
  }

  /** A name typed in another letter case, or with surrounding spaces, is recognised as the catalogue's own. */
  lemma CatalogueNamesRecognised(catalogue: seq<string>, typed: string, k: string)
    requires k in catalogue && Key(typed) == Text.Lower(k)
    ensures Key(typed) in LowerMap(catalogue)
    ensures Text.Lower(LowerMap(catalogue)[Key(typed)]) == Text.Lower(k)
  {
  }

  /** The table of the actual catalogue. */
  function DeviceTable(): map<string, string>
  {
    LowerMap(DeviceNames)
  }

  /** The refusal names every unknown entry, then lists the catalogue in sorted order. */
  function InvalidMessage(invalid: seq<string>): (m: string)
    ensures Text.StartsWith(m, "Invalid rhetorical devices: " + Text.Join(invalid, ", ") + ". Available devices: ")
  {
    var head := "Invalid rhetorical devices: " + Text.Join(invalid, ", ") + ". Available devices: ";
    var m := head + Text.Join(SortedDeviceNames, ", ");
    assert m[..|head|] == head;
    m
  }

  /**
   * `validate_devices`: an empty list is refused; any unknown entry refuses
   * the whole list, naming every unknown entry; otherwise the catalogue
   * spellings, in order.
   */
  function Validated(devices: seq<string>): (r: Result<seq<string>, Exceptions.ApiError>)
    ensures devices == [] ==> r == Err(Exceptions.Validation("At least one rhetorical device must be selected", None))
    ensures r.Ok? <==> devices != [] && Unknown(DeviceTable(), Key, devices) == []
    ensures r.Ok? ==> r.value == Known(DeviceTable(), Key, devices)
    ensures r.Err? ==> r.error.statusCode == 400 && r.error.errorCode == "VALIDATION_ERROR"
    ensures devices != [] && r.Err? ==>
      r.error.message == InvalidMessage(Unknown(DeviceTable(), Key, devices))
  {
    if devices == [] then Err(Exceptions.Validation("At least one rhetorical device must be selected", None))
    else
      var invalid := Unknown(DeviceTable(), Key, devices);
      if invalid != [] then Err(Exceptions.Validation(InvalidMessage(invalid), None))
      else Ok(Known(DeviceTable(), Key, devices))
  }

  /** The validation loop: sorts each entry into the recognised or the unknown list. */
  method SortEntries(table: map<string, string>, devices: seq<string>) returns (validated: seq<string>, invalid: seq<string>)
    ensures validated == Known(table, Key, devices)
    ensures invalid == Unknown(table, Key, devices)
  {
    validated, invalid := [], [];
    var i := 0;
    while i < |devices|
      invariant 0 <= i <= |devices|
      invariant validated == Known(table, Key, devices[..i])
      invariant invalid == Unknown(table, Key, devices[..i])
    {
      assert devices[..i + 1][..i] == devices[..i];
      var key := Key(devices[i]);
      if key in table {
        validated := validated + [table[key]];
      } else {
        invalid := invalid + [devices[i]];
      }
      i := i + 1;
    }
    assert devices[..i] == devices;
  }

  /** `validate_devices`, against the service's catalogue. */
  method ValidateDevices(devices: seq<string>) returns (r: Result<seq<string>, Exceptions.ApiError>)
    ensures r == Validated(devices)
  {
    if devices == [] {
      return Err(Exceptions.Validation("At least one rhetorical device must be selected", None));
    }
    var validated, invalid := SortEntries(DeviceTable(), devices);
    if invalid != [] {
      r := Err(Exceptions.Validation(InvalidMessage(invalid), None));
    } else {
      r := Ok(validated);
    }
  }

  // ---------------------------------------------------------------------
  // _parse_prompts
  // ---------------------------------------------------------------------

  /** The characters stripped from the front of a numbered or bulleted line. */
  const Markers: set<char> := {'0', '1', '2', '3', '4', '5', '6', '7', '8', '9', '.', '-', '*', ' '}

  /**
   * What one line of the answer is to the scanner, once stripped: blank; a
   * numbered or bulleted line opening a prompt with the given text; or a
   * line naming a device, mentioning an example or hint, or neither.
   */
  datatype Line = Blank | Marked(text: string) | DeviceNote(line: string) | ExampleNote(line: string) | Plain(line: string)

  /** Whether the (lower-cased) line names one of the devices. */
  predicate MentionsDevice(low: string, devices: seq<string>)
  {
    devices != [] && (Text.Contains(low, Text.Lower(devices[0])) || MentionsDevice(low, devices[1..]))
  }

  /** A line that opens a new prompt: it starts with a digit, '-' or '*'. */
  predicate IsMarked(line: string)
  {
    line != [] && (Text.IsDigit(line[0]) || line[0] == '-' || line[0] == '*')
  }

  /** The text kept of a line: stripped, and for a marked line its leading markers removed too. */
  predicate WellClassified(l: Line)
  {
    match l
    case Blank => true
    case Marked(t) => t == [] || Text.Stripped(t)
    case DeviceNote(x) => Text.Stripped(x)
    case ExampleNote(x) => Text.Stripped(x)
    case Plain(x) => Text.Stripped(x)
  }

  /** How the scanner reads one raw line. */
  function Classify(raw: string, devices: seq<string>): (l: Line)
    ensures WellClassified(l)
  {
    var line := Text.Strip(raw);
    if line == [] then Blank
    else if IsMarked(line) then Marked(Text.Strip(Text.LStripChars(line, Markers)))
    else
      var low := Text.Lower(line);
      if MentionsDevice(low, devices) then DeviceNote(line)
      else if Text.Contains(low, "example") || Text.Contains(low, "hint") then ExampleNote(line)
      else Plain(line)
  }

  /**
   * The scanner's state: the prompts so far, the prompt being built (empty
   * when there is none), and its device and example lines.
   */
  datatype Scan = Scan(prompts: seq<Prompt>, current: string, curDevices: seq<string>, curExamples: seq<string>)

  /** The prompt being built, if there is one; without device lines it asks for every device. */
  function Flush(st: Scan, devices: seq<string>): (r: seq<Prompt>)
    ensures |r| == (if st.current == [] then 0 else 1)
  {
    if st.current == [] then []
    else
      [Prompt(st.current,
        if st.curDevices != [] then st.curDevices else devices,
        if st.curExamples != [] then Some(Text.Join(st.curExamples, "\n")) else None)]
  }

  /**
   * One line of the scan. A blank line or a marked line closes the prompt
   * being built; a marked line opens the next one. Other lines only count
   * while a prompt is open: device lines and example lines are set aside,
   * anything else is appended to the prompt's text after a space.
   */
  function Step(st: Scan, l: Line, devices: seq<string>): Scan
  {
    match l
    case Blank => if st.current != [] then Scan(st.prompts + Flush(st, devices), [], [], []) else st
    case Marked(t) => Scan(st.prompts + Flush(st, devices), t, [], [])
    case DeviceNote(x) => if st.current != [] then st.(curDevices := st.curDevices + [x]) else st
    case ExampleNote(x) => if st.current != [] then st.(curExamples := st.curExamples + [x]) else st
    case Plain(x) => if st.current != [] then st.(current := st.current + " " + x) else st
  }

  /** The scan of a sequence of classified lines, from the empty state. */
  function ScanLines(lines: seq<Line>, devices: seq<string>): Scan
  {
    if lines == [] then Scan([], [], [], [])
    else Step(ScanLines(lines[..|lines| - 1], devices), lines[|lines| - 1], devices)
  }

  /** The lines of the stripped answer, classified. */
  function Lines(content: string, devices: seq<string>): (r: seq<Line>)
    ensures |r| == |Text.SplitOn(Text.Strip(content), "\n")|
    ensures forall i :: 0 <= i < |r| ==> WellClassified(r[i])
  {
    var raw := Text.SplitOn(Text.Strip(content), "\n");
    seq(|raw|, i requires 0 <= i < |raw| => Classify(raw[i], devices))
  }

  /** The prompts the line scan yields, the last one included. */
  function ScannedPrompts(content: string, devices: seq<string>): seq<Prompt>
  {
    var st := ScanLines(Lines(content, devices), devices);
    st.prompts + Flush(st, devices)
  }

  /** The fallback parse: blank-line separated sections longer than 20 characters, markers removed. */
  function SectionPrompts(sections: seq<string>, devices: seq<string>): seq<Prompt>
  {
    if sections == [] then []
    else SectionPrompts(sections[..|sections| - 1], devices) + SectionPrompt(sections[|sections| - 1], devices)
  }

  /** What one section adds: nothing, or one well-formed prompt with the given devices and no examples. */
  function SectionPrompt(raw: string, devices: seq<string>): (r: seq<Prompt>)
    ensures |r| <= 1 && SectionsGood(r, devices)
  {
    var section := Text.Strip(raw);
    if section != [] && |section| > 20 then
      var text := Text.Strip(Text.LStripChars(section, Markers));
      if text != [] then
        var q := Prompt(text, devices, None);
        assert Text.Stripped(text);
        assert WellFormed(q, devices);
        OneGood(q, devices);
        [q]
      else []
    else []
  }

  /** `_parse_prompts`: the line scan, or the section split when the scan finds nothing. */
  function Parsed(content: string, devices: seq<string>): seq<Prompt>
  {
    var scanned := ScannedPrompts(content, devices);
    if scanned != [] then scanned else SectionPrompts(Text.SplitOn(content, "\n\n"), devices)
  }

  /** The line loop of the scanner. */
  method ScanAll(lines: seq<Line>, devices: seq<string>) returns (prompts: seq<Prompt>)
    ensures var st := ScanLines(lines, devices); prompts == st.prompts + Flush(st, devices)
  {
    prompts := [];
    var current: string := [];
    var curDevices: seq<string> := [];
    var curExamples: seq<string> := [];
    var i := 0;
    while i < |lines|
      invariant 0 <= i <= |lines|
      invariant Scan(prompts, current, curDevices, curExamples) == ScanLines(lines[..i], devices)
    {
      assert lines[..i + 1][..i] == lines[..i];
      match lines[i] {
        case Blank =>
          if current != [] {
            prompts := prompts + Flush(Scan(prompts, current, curDevices, curExamples), devices);
            current, curDevices, curExamples := [], [], [];
          }
        case Marked(t) =>
          prompts := prompts + Flush(Scan(prompts, current, curDevices, curExamples), devices);
          current, curDevices, curExamples := t, [], [];
        case DeviceNote(x) =>
          if current != [] {
            curDevices := curDevices + [x];
          }
        case ExampleNote(x) =>
          if current != [] {
            curExamples := curExamples + [x];
          }
        case Plain(x) =>
          if current != [] {
            current := current + " " + x;
          }
      }
      i := i + 1;
    }
    assert lines[..i] == lines;
    prompts := prompts + Flush(Scan(prompts, current, curDevices, curExamples), devices);
  }

  /** The section parse of a longer prefix adds what the next section gives. */
  lemma SectionPromptsSnoc(sections: seq<string>, j: nat, devices: seq<string>)
    requires j < |sections|
    ensures SectionPrompts(sections[..j + 1], devices) == SectionPrompts(sections[..j], devices) + SectionPrompt(sections[j], devices)
  {
    assert sections[..j + 1][..j] == sections[..j];
  }

  /** The section loop of the scanner. */
  method SplitSections(sections: seq<string>, devices: seq<string>) returns (prompts: seq<Prompt>)
    ensures prompts == SectionPrompts(sections, devices)
  {
    prompts := [];
    var j := 0;
    while j < |sections|
      invariant 0 <= j <= |sections|
      invariant prompts == SectionPrompts(sections[..j], devices)
    {
      SectionPromptsSnoc(sections, j, devices);
      prompts := prompts + SectionPrompt(sections[j], devices);
      j := j + 1;
    }
    assert sections[..j] == sections;
  }

  /** `_parse_prompts`: one pass over the lines, then, if nothing was found, one over the sections. */
  method ParsePrompts(content: string, devices: seq<string>) returns (prompts: seq<Prompt>)
    ensures prompts == Parsed(content, devices)
  {
    prompts := ScanAll(Lines(content, devices), devices);
    if prompts == [] {
      prompts := SplitSections(Text.SplitOn(content, "\n\n"), devices);
    }
  }

  /** A prompt as the parser emits it: stripped, non-empty text, non-empty examples if any, some devices. */
  predicate WellFormed(p: Prompt, devices: seq<string>)
  {
    Text.Stripped(p.prompt) && (p.examples.Some? ==> p.examples.value != []) && (devices != [] ==> p.devices != [])
  }

  /** What the scan keeps true of its state. */
  predicate GoodState(st: Scan, devices: seq<string>)
  {
    (forall p :: p in st.prompts ==> WellFormed(p, devices)) &&
    (st.current == [] || Text.Stripped(st.current)) &&
    (forall l :: l in st.curExamples ==> l != [])
  }

  lemma JoinStartsWithFirst(parts: seq<string>, sep: string)
    requires parts != []
    ensures |Text.Join(parts, sep)| >= |parts[0]|
  {
  }

  lemma FlushWellFormed(st: Scan, devices: seq<string>)
    requires GoodState(st, devices)
    ensures forall p :: p in Flush(st, devices) ==> WellFormed(p, devices)
  {
    if st.current != [] && st.curExamples != [] {
      assert st.curExamples[0] in st.curExamples;
      JoinStartsWithFirst(st.curExamples, "\n");
    }
  }

  /** Appending a stripped line to stripped text keeps it stripped. */
  lemma ExtendStripped(current: string, line: string)
    requires Text.Stripped(current) && Text.Stripped(line)
    ensures Text.Stripped(current + " " + line)
  {
    var s := current + " " + line;
    assert s[0] == current[0];
    assert s[|s| - 1] == line[|line| - 1];
  }

  lemma StepKeepsGood(st: Scan, l: Line, devices: seq<string>)
    requires GoodState(st, devices) && WellClassified(l)
    ensures GoodState(Step(st, l, devices), devices)
  {
    FlushWellFormed(st, devices);
    if l.Plain? && st.current != [] {
      ExtendStripped(st.current, l.line);
    }
  }

  lemma {:induction false} ScanKeepsGood(lines: seq<Line>, devices: seq<string>)
    requires forall i :: 0 <= i < |lines| ==> WellClassified(lines[i])
    ensures GoodState(ScanLines(lines, devices), devices)
  {
    if lines != [] {
      ScanKeepsGood(lines[..|lines| - 1], devices);
      StepKeepsGood(ScanLines(lines[..|lines| - 1], devices), lines[|lines| - 1], devices);
    }
  }

  /** A single well-formed prompt with no examples is a good list. */
  lemma OneGood(q: Prompt, devices: seq<string>)
    requires WellFormed(q, devices) && q.examples.None?
    ensures SectionsGood([q], devices)
  {
    forall p | p in [q] ensures WellFormed(p, devices) && p.examples.None? {
      assert p == q;
    }
  }

  /** The prompts of the section split are well formed and carry no examples. */
  predicate SectionsGood(ps: seq<Prompt>, devices: seq<string>)
  {
    forall p :: p in ps ==> WellFormed(p, devices) && p.examples.None?
  }

  lemma {:induction false} SectionsWellFormed(sections: seq<string>, devices: seq<string>)
    ensures SectionsGood(SectionPrompts(sections, devices), devices)
  {
    if sections != [] {
      SectionsWellFormed(sections[..|sections| - 1], devices);
      var init := SectionPrompts(sections[..|sections| - 1], devices);
      var last := SectionPrompt(sections[|sections| - 1], devices);
      assert forall p :: p in init + last ==> p in init || p in last;
    }
  }

  /**
   * Every parsed prompt has non-empty text with no whitespace at either
   * end, non-empty examples when it has any, and, given any devices, a
   * non-empty device list.
   */
  lemma ParsedWellFormed(content: string, devices: seq<string>)
    ensures forall p :: p in Parsed(content, devices) ==> WellFormed(p, devices)
  {
    var st := ScanLines(Lines(content, devices), devices);
    ScanKeepsGood(Lines(content, devices), devices);
    FlushWellFormed(st, devices);
    SectionsWellFormed(Text.SplitOn(content, "\n\n"), devices);
  }

  /** How many prompts a state stands for: those found and the one being built. */
  function Opened(st: Scan): nat
  {
    |st.prompts| + (if st.current == [] then 0 else 1)
  }

  /** Prompts found plus the one being built never outnumber the lines read. */
  lemma {:induction false} ScanCount(lines: seq<Line>, devices: seq<string>)
    ensures Opened(ScanLines(lines, devices)) <= |lines|
  {
    if lines != [] {
      ScanCount(lines[..|lines| - 1], devices);
    }
  }

  /** The line scan yields at most one prompt per line of the stripped answer. */
  lemma ScannedAtMostLines(content: string, devices: seq<string>)
    ensures |ScannedPrompts(content, devices)| <= |Text.SplitOn(Text.Strip(content), "\n")|
  {
    ScanCount(Lines(content, devices), devices);
  }

  // ---------------------------------------------------------------------
  // _generate_fallback_prompts and the tail of generate_prompts
  // ---------------------------------------------------------------------

  /** The five fallback texts; `names` is the comma-joined device list. */
  function Template(i: nat, topic: string, names: string): (t: string)
    requires i < 5
    ensures Text.Contains(t, topic)
  {
    var pre :=
      if i == 0 then "Write a short piece about "
      else if i == 1 then "Create a narrative or argument about "
      else if i == 2 then "Compose a piece on "
      else if i == 3 then "Write about "
      else "Craft a response to the topic '";
    var post :=
      if i == 0 then " using " + names + ". Focus on incorporating these devices naturally into your writing."
      else if i == 1 then " that demonstrates " + names + ". Make sure each device enhances your message."
      else if i == 2 then " where you intentionally use " + names + " to add depth and style to your writing."
      else if i == 3 then " and experiment with " + names + ". Try to use each device at least once in your composition."
      else "' that showcases " + names + ". Pay attention to how these devices affect the tone and impact of your writing.";
    Text.ContainsMiddle(pre, topic, post);
    pre + topic + post
  }

  /** How many fallback prompts a request for `count` gets: `min(count, 5)`, none for a negative count. */
  function FallbackCount(count: int): (n: nat)
    ensures n <= 5
    ensures count >= 0 ==> n <= count
    ensures count >= 5 ==> n == 5
    ensures 0 <= count <= 5 ==> n == count
  {
    if count <= 0 then 0 else if count < 5 then count else 5
  }

  /** `_generate_fallback_prompts`: template i at position i, with every device and no examples. */
  function Fallback(topic: string, devices: seq<string>, count: int): (r: seq<Prompt>)
    ensures |r| == FallbackCount(count)
    ensures forall i :: 0 <= i < |r| ==>
      r[i].devices == devices && r[i].examples.None? && Text.Contains(r[i].prompt, topic)
  {
    seq(FallbackCount(count), i requires 0 <= i < FallbackCount(count) =>
      Prompt(Template(i, topic, Text.Join(devices, ", ")), devices, None))
  }

  /** The fallback loop. */
  method FallbackPrompts(topic: string, devices: seq<string>, count: int) returns (prompts: seq<Prompt>)
    ensures prompts == Fallback(topic, devices, count)
  {
    var names := Text.Join(devices, ", ");
    var n := if count < 5 then count else 5;
    prompts := [];
    var i := 0;
    while i < n
      invariant 0 <= i <= FallbackCount(count)
      invariant |prompts| == i
      invariant forall k :: 0 <= k < i ==> prompts[k] == Prompt(Template(k, topic, names), devices, None)
    {
      ExtendFallback(prompts, topic, names, devices);
      prompts := prompts + [Prompt(Template(i, topic, names), devices, None)];
      i := i + 1;
    }
  }

  /** One more template, at the next position, keeps template k at position k. */
  lemma ExtendFallback(prompts: seq<Prompt>, topic: string, names: string, devices: seq<string>)
    requires |prompts| < 5
    requires forall k :: 0 <= k < |prompts| ==> prompts[k] == Prompt(Template(k, topic, names), devices, None)
    ensures var longer := prompts + [Prompt(Template(|prompts|, topic, names), devices, None)];
      forall k :: 0 <= k < |longer| ==> longer[k] == Prompt(Template(k, topic, names), devices, None)
  {
  }

  /** A short parse padded with fallback prompts, then cut to `count`. */
  function Padded(parsed: seq<Prompt>, topic: string, devices: seq<string>, count: int): seq<Prompt>
  {
    var all := if |parsed| < count then parsed + Fallback(topic, devices, count - |parsed|) else parsed;
    Text.SliceTo(all, count)
  }

  /**
   * Never more than `count` prompts; exactly `count` when the parse and the
   * five fallbacks together have enough; and the parsed prompts come first.
   */
  lemma PaddedShape(parsed: seq<Prompt>, topic: string, devices: seq<string>, count: int)
    requires count >= 0
    ensures |Padded(parsed, topic, devices, count)| <= count
    ensures |Padded(parsed, topic, devices, count)| == (if count < |parsed| + 5 then count else |parsed| + 5)
    ensures var m := if count < |parsed| then count else |parsed|;
      Padded(parsed, topic, devices, count)[..m] == parsed[..m]
  {
    var all := if |parsed| < count then parsed + Fallback(topic, devices, count - |parsed|) else parsed;
    var m := if count < |parsed| then count else |parsed|;
    assert all[..m] == parsed[..m];
  }

  lemma PaddedAtMostCount(parsed: seq<Prompt>, topic: string, devices: seq<string>, count: int)
    ensures count >= 0 ==> |Padded(parsed, topic, devices, count)| <= count
  {
  }

  /** What the language model gave back: nothing usable (an error, no choices), or a text. */
  datatype Reply = Failed | Answer(content: string)

  const NoClientMessage: string := "OpenAI API key not configured. Please set OPENAI_API_KEY environment variable."

  /**
   * `generate_prompts`: a blank topic and invalid devices are refused, a
   * missing client is a 503, and from then on every path gives prompts:
   * the fallbacks when the reply is unusable or blank, else the parse,
   * padded and cut to `count`.
   */
  function Generate(topic: string, devices: seq<string>, count: int, hasClient: bool, reply: Reply): (r: Result<seq<Prompt>, Exceptions.ApiError>)
    ensures Text.IsBlank(topic) ==> r == Err(Exceptions.Validation("Topic cannot be empty", None))
    ensures !Text.IsBlank(topic) && Validated(devices).Err? ==> r == Err(Validated(devices).error)
    ensures !Text.IsBlank(topic) && Validated(devices).Ok? && !hasClient ==>
      r == Err(Exceptions.ServiceNotAvailable(NoClientMessage))
    ensures r.Ok? <==> !Text.IsBlank(topic) && Validated(devices).Ok? && hasClient
    ensures r.Ok? && count >= 0 ==> |r.value| <= count
    ensures r.Ok? && (reply.Failed? || Text.IsBlank(reply.content)) ==>
      r.value == Fallback(topic, Validated(devices).value, count)
    ensures r.Ok? && reply.Answer? && !Text.IsBlank(reply.content) ==>
      r.value == Padded(Parsed(reply.content, Validated(devices).value), topic, Validated(devices).value, count)
  {
    if Text.IsBlank(topic) then Err(Exceptions.Validation("Topic cannot be empty", None))
    else match Validated(devices)
      case Err(e) => Err(e)
      case Ok(valid) =>
        if !hasClient then Err(Exceptions.ServiceNotAvailable(NoClientMessage))
        else match reply
          case Failed => Ok(Fallback(topic, valid, count))
          case Answer(content) =>
            if Text.IsBlank(content) then Ok(Fallback(topic, valid, count))
            else
              var parsed := Parsed(content, valid);
              PaddedAtMostCount(parsed, topic, valid, count);
              Ok(Padded(parsed, topic, valid, count))
  }
}
