/** The tools text box of the agent form: how it is printed (web/agents.py) and parsed (agent_service.py). */
module ToolsField {
  import opened Prelude
  import opened Text

  /** `raw.split("\n")` */
  function Lines(s: string): (lines: seq<string>)
    ensures lines != []
  {
    if s == "" then [""]
    else if s[0] == '\n' then [""] + Lines(s[1..])
    else var rest := Lines(s[1..]); [[s[0]] + rest[0]] + rest[1..]
  }

  /** A line has no newline in it and only characters of the text. */
  lemma {:induction false} LineOf(s: string, i: nat)
    requires i < |Lines(s)|
    ensures '\n' !in Lines(s)[i] && forall c :: c in Lines(s)[i] ==> c in s
  {
    if s != "" {
      var rest := Lines(s[1..]);
      var k := if s[0] == '\n' && i > 0 then i - 1 else i;
      if s[0] != '\n' || i > 0 {
        LineOf(s[1..], k);
        assert Lines(s)[i] == if s[0] != '\n' && i == 0 then [s[0]] + rest[0] else rest[k];
      }
    }
  }

  function CommaToNewline(c: char): char {
    if c == ',' then '\n' else c
  }

  /** `parse_tools_field` */
  function ParseTools(raw: string): seq<string> {
    if Strip(raw) == "" then []
    else Filter((part: string) => part != "", Map(Strip, Lines(Map(CommaToNewline, raw))))
  }

  /**
   The text of the box: one name a line. `pad` is what a browser puts before each newline it sends back:
   nothing or a carriage return.
   */
  function PrintTools(names: seq<string>, pad: string): string {
    if names == [] then ""
    else if |names| == 1 then names[0]
    else names[0] + pad + "\n" + PrintTools(names[1..], pad)
  }

  predicate IsToolName(name: string) {
    name != "" && Trimmed(name) && ',' !in name && '\n' !in name
  }

  predicate IsPad(pad: string) {
    forall c :: c in pad ==> IsSpace(c) && c != '\n'
  }

  /** Whatever is typed, the parsed names are proper names. */
  lemma ParsedAreNames(raw: string, name: string)
    requires name in ParseTools(raw)
    ensures IsToolName(name)
  {
    var text := Map(CommaToNewline, raw);
    var i :| 0 <= i < |Lines(text)| && Strip(Lines(text)[i]) == name;
    LineOf(text, i);
    forall c | c in Lines(text)[i] ensures c != ',' {
      var k :| 0 <= k < |text| && text[k] == c;
    }
  }

  lemma {:induction false} StripPadded(name: string, pad: string)
    requires name != "" && Trimmed(name) && IsPad(pad)
    ensures Strip(name + pad) == name
  {
    if pad == "" {
      assert name + pad == name;
    } else {
      assert (name + pad)[..|name + pad| - 1] == name + pad[..|pad| - 1];
      StripPadded(name, pad[..|pad| - 1]);
    }
  }

  lemma {:induction false} LinesSplit(line: string, rest: string)
    requires '\n' !in line
    ensures Lines(line + "\n" + rest) == [line] + Lines(rest)
  {
    var s := line + "\n" + rest;
    if line == "" {
      assert s[1..] == rest;
    } else {
      assert s[1..] == line[1..] + "\n" + rest;
      LinesSplit(line[1..], rest);
      assert [line[0]] + line[1..] == line;
    }
  }

  lemma {:induction false} LinesOfOne(line: string)
    requires '\n' !in line
    ensures Lines(line) == [line]
  {
    if line != "" {
      LinesOfOne(line[1..]);
      assert [line[0]] + line[1..] == line;
    }
  }

  lemma {:induction false} LinesOfPrinted(names: seq<string>, pad: string)
    requires names != [] && IsPad(pad) && forall n :: n in names ==> IsToolName(n)
    ensures Map(Strip, Lines(PrintTools(names, pad))) == names
  {
    assert names[0] in names;
    if |names| == 1 {
      LinesOfOne(names[0]);
    } else {
      var rest := PrintTools(names[1..], pad);
      LinesOfPrinted(names[1..], pad);
      LinesSplit(names[0] + pad, rest);
      StripPadded(names[0], pad);
      MapCons(Strip, names[0] + pad, Lines(rest));
      assert [names[0]] + names[1..] == names;
    }
  }

  lemma {:induction false} PrintedHasNoComma(names: seq<string>, pad: string)
    requires IsPad(pad) && forall n :: n in names ==> IsToolName(n)
    ensures ',' !in PrintTools(names, pad)
  {
    if names != [] {
      assert names[0] in names;
      PrintedHasNoComma(names[1..], pad);
    }
  }

  /** Printing and parsing again gives a list back exactly when it consists of proper names. */
  lemma PrintedParsesExactly(names: seq<string>, pad: string)
    requires IsPad(pad)
    ensures ParseTools(PrintTools(names, pad)) == names <==> forall n :: n in names ==> IsToolName(n)
  {
    var text := PrintTools(names, pad);
    if forall n :: n in names ==> IsToolName(n) {
      PrintedHasNoComma(names, pad);
      assert Map(CommaToNewline, text) == text;
      if names != [] {
        LinesOfPrinted(names, pad);
        FilterAll((part: string) => part != "", names);
        assert names[0] in names && text[0] == names[0][0] && text[0] in text;
      }
    }
    forall n | n in names && ParseTools(text) == names ensures IsToolName(n) {
      ParsedAreNames(text, n);
    }
  }

  /** Opening the form and saving it unchanged changes no agent's tools, whatever was typed first. */
  lemma ReparseIsStable(raw: string, pad: string)
    requires IsPad(pad)
    ensures ParseTools(PrintTools(ParseTools(raw), pad)) == ParseTools(raw)
  {
    forall n | n in ParseTools(raw) ensures IsToolName(n) {
      ParsedAreNames(raw, n);
    }
    PrintedParsesExactly(ParseTools(raw), pad);
  }

  // ---------------------------------------------------------------- what separates names

  lemma {:induction false} LinesJoin(a: string, b: string)
    ensures Lines(a + "\n" + b) == Lines(a) + Lines(b)
  {
    if a == "" {
      assert (a + "\n" + b)[1..] == b;
    } else {
      assert (a + "\n" + b)[1..] == a[1..] + "\n" + b;
      LinesJoin(a[1..], b);
    }
  }

  /** A blank text has no names by the general rule either. */
  lemma NamesOf(raw: string)
    ensures ParseTools(raw) == Filter((part: string) => part != "", Map(Strip, Lines(Map(CommaToNewline, raw))))
  {
    var text := Map(CommaToNewline, raw);
    if Strip(raw) == "" {
      forall part | part in Map(Strip, Lines(text)) ensures part == "" {
        var i :| 0 <= i < |Lines(text)| && Strip(Lines(text)[i]) == part;
        LineOf(text, i);
        forall c | c in Lines(text)[i] ensures IsSpace(c) {
          var k :| 0 <= k < |text| && text[k] == c;
          assert raw[k] in raw;
        }
      }
      FilterNone((part: string) => part != "", Map(Strip, Lines(text)));
    }
  }

  /** A comma separates names, and so does a newline: the names are those before it and then those after it. */
  lemma SeparatorsSeparate(a: string, b: string, separator: char)
    requires separator == ',' || separator == '\n'
    ensures ParseTools(a + [separator] + b) == ParseTools(a) + ParseTools(b)
  {
    var left, right := Map(CommaToNewline, a), Map(CommaToNewline, b);
    assert Map(CommaToNewline, a + [separator] + b) == left + "\n" + right;
    LinesJoin(left, right);
    MapAppend(Strip, Lines(left), Lines(right));
    FilterAppend((part: string) => part != "", Map(Strip, Lines(left)), Map(Strip, Lines(right)));
    NamesOf(a);
    NamesOf(b);
    NamesOf(a + [separator] + b);
  }

  lemma NameOnLine(line: string)
    ensures Filter((part: string) => part != "", Map(Strip, [line])) == if Strip(line) == "" then [] else [Strip(line)]
  {
    MapOne(Strip, line);
    FilterOne((part: string) => part != "", Strip(line));
  }

  /** Without separators there is at most one name: the text without white space around it. */
  lemma OneName(raw: string)
    requires ',' !in raw && '\n' !in raw
    ensures ParseTools(raw) == if Strip(raw) == "" then [] else [Strip(raw)]
  {
    assert Map(CommaToNewline, raw) == raw;
    LinesOfOne(raw);
    NamesOf(raw);
    NameOnLine(raw);
  }
}
