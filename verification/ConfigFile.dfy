/** The parser of the loader's configuration file. */
module ConfigFile {
  import opened Basics

  // ---------------------------------------------------------------------------------
  // Lines
  // ---------------------------------------------------------------------------------

  /** The position of the first `c` from `from` on, or the end. */
  function Find(s: string, c: char, from: nat): (r: nat)
    requires from <= |s|
    ensures from <= r <= |s| && (r < |s| ==> s[r] == c) && forall k :: from <= k < r ==> s[k] != c
    decreases |s| - from
  {
    if from == |s| || s[from] == c then from else Find(s, c, from + 1)
  }

  /** The parts between the separators from `p` on. */
  function Split(s: string, c: char, p: nat): (r: seq<string>)
    requires p <= |s|
    ensures r != []
    decreases |s| - p
  {
    var found := Find(s, c, p);
    if found < |s| then [s[p..found]] + Split(s, c, found + 1) else [s[p..]]
  }

  function Joined(parts: seq<string>, c: char): string {
    if parts == [] then "" else if |parts| == 1 then parts[0] else parts[0] + [c] + Joined(parts[1..], c)
  }

  /** The parts make up the whole. */
  lemma {:induction false} SplitJoined(s: string, c: char, p: nat)
    requires p <= |s|
    ensures Joined(Split(s, c, p), c) == s[p..]
    decreases |s| - p
  {
    var found := Find(s, c, p);
    if found < |s| {
      var rest := Split(s, c, found + 1);
      SplitJoined(s, c, found + 1);
      JoinedMore(s[p..found], rest, c);
      Broken(s, c, p, found);
    } else {
      assert |Split(s, c, p)| == 1;
    }
  }

  /** None of them contains a separator. */
  lemma {:induction false} SplitUnbroken(s: string, c: char, p: nat)
    requires p <= |s|
    ensures forall part :: part in Split(s, c, p) ==> c !in part
    decreases |s| - p
  {
    var found := Find(s, c, p);
    if found < |s| {
      SplitUnbroken(s, c, found + 1);
    }
  }

  lemma SplitOne(s: string, c: char, p: nat, part: string)
    requires p <= |s| && s[p..] == part && c !in part
    ensures Split(s, c, p) == [part]
  {
    assert s[p..] == part + "";
    FirstPart(s, c, p, part, "");
  }

  lemma SplitMore(s: string, c: char, p: nat, part: string, rest: string)
    requires p <= |s| && s[p..] == part + [c] + rest && c !in part
    ensures p + |part| < |s| && s[p + |part| + 1..] == rest
    ensures Split(s, c, p) == [part] + Split(s, c, p + |part| + 1)
  {
    assert s[p..] == part + ([c] + rest);
    FirstPart(s, c, p, part, [c] + rest);
    assert s[p + |part| + 1..] == s[p..][|part| + 1..];
  }

  /** The parts are the only ones of this kind. */
  lemma {:induction false} SplitOnly(s: string, c: char, p: nat, parts: seq<string>)
    requires p <= |s| && parts != [] && s[p..] == Joined(parts, c) && forall part :: part in parts ==> c !in part
    ensures parts == Split(s, c, p)
    decreases |parts|
  {
    var first, others := parts[0], parts[1..];
    assert parts == [first] + others;
    if others == [] {
      SplitOne(s, c, p, first);
    } else {
      SplitMore(s, c, p, first, Joined(others, c));
      SplitOnly(s, c, p + |first| + 1, others);
    }
  }

  lemma {:induction false} FirstPart(s: string, c: char, p: nat, first: string, rest: string)
    requires p <= |s| && s[p..] == first + rest && c !in first && (rest != "" ==> rest[0] == c)
    ensures Find(s, c, p) == p + |first| && s[p..p + |first|] == first
    decreases |first|
  {
    assert s[p..p + |first|] == first;
    if first != "" {
      assert s[p] == s[p..][0] == first[0];
      assert s[p + 1..] == s[p..][1..] == first[1..] + rest;
      FirstPart(s, c, p + 1, first[1..], rest);
    } else if rest != "" {
      assert s[p] == s[p..][0] == rest[0];
    }
  }

  lemma JoinedMore(part: string, rest: seq<string>, c: char)
    requires rest != []
    ensures Joined([part] + rest, c) == part + [c] + Joined(rest, c)
  {
    assert ([part] + rest)[1..] == rest;
  }

  lemma Broken(s: string, c: char, p: nat, found: nat)
    requires p <= found < |s| && s[found] == c
    ensures s[p..] == s[p..found] + [c] + s[found + 1..]
  {
  }

  // ---------------------------------------------------------------------------------
  // Tokens
  // ---------------------------------------------------------------------------------

  predicate IsSpace(c: char) {
    c == ' ' || '\t' <= c <= '\r'
  }

  function TrimLeft(s: string): string {
    if s != [] && IsSpace(s[0]) then TrimLeft(s[1..]) else s
  }

  function TrimRight(s: string): string {
    if s != [] && IsSpace(s[|s| - 1]) then TrimRight(s[..|s| - 1]) else s
  }

  function Trim(s: string): string {
    TrimRight(TrimLeft(s))
  }

  predicate AppendHere(s: string, k: int) {
    0 <= k < |s| - 1 && s[k] == '+' && s[k + 1] == '='
  }

  /** The position of the first `+=` from `from` on, or the end. */
  function FindAppend(s: string, from: nat): (r: nat)
    requires from <= |s|
    ensures from <= r <= |s| && (r < |s| ==> AppendHere(s, r)) && forall k :: from <= k < r ==> !AppendHere(s, k)
    decreases |s| - from
  {
    if from == |s| || AppendHere(s, from) then from else FindAppend(s, from + 1)
  }

  datatype Token = Blank | Assign(name: string, value: string) | Append(name: string, value: string) | Section(name: string) | Bad

  /** What a line without comment says. */
  function ReadLine(line: string): Token {
    if line == [] then Blank
    else if line[0] == '[' && line[|line| - 1] == ']' then Section(line[1..|line| - 1])
    else
      var assign, append := Find(line, '=', 0), FindAppend(line, 0);
      if assign < |line| && append == |line| then Assign(Trim(line[..assign]), Trim(line[assign + 1..]))
      else if append < |line| then Append(Trim(line[..append]), Trim(line[append + 2..]))
      else Bad
  }

  /** What a line says. */
  function Classify(raw: string): Token {
    ReadLine(Trim(raw[..Find(raw, '#', 0)]))
  }

  /** A token, and the number of its line. */
  datatype Located = Located(token: Token, line: nat)

  /** The tokens of some lines, the first of which has the number `number`. */
  function Tokens(lines: seq<string>, number: nat): seq<Located> {
    if lines == [] then []
    else
      var rest := Tokens(lines[1..], number + 1);
      if Classify(lines[0]).Blank? then rest else [Located(Classify(lines[0]), number)] + rest
  }

  class ConfigParser {
    const content: string
    var p: Option<nat>
    var lineno: nat
    var wasEndOfFile: bool

    ghost predicate Valid()
      reads this
    {
      (p.Some? ==> p.value <= |content|) && (wasEndOfFile ==> p.None?)
    }

    /** What is still to be read. */
    ghost function Lines(): seq<string>
      requires Valid()
      reads this
    {
      if p.None? then [] else Split(content, '\n', p.value)
    }

    ghost function Rest(): seq<Located>
      requires Valid()
      reads this
    {
      Tokens(Lines(), lineno + 1)
    }

    constructor (content: string)
      ensures Valid() && !wasEndOfFile && Rest() == Tokens(Split(content, '\n', 0), 1)
    {
      this.content, p, lineno, wasEndOfFile := content, Some(0), 0, false;
    }

    method NextLine() returns (more: bool, line: string)
      requires Valid()
      modifies this
      ensures Valid() && wasEndOfFile == old(wasEndOfFile)
      ensures more <==> old(Lines()) != []
      ensures !more ==> Lines() == [] && lineno == old(lineno)
      ensures more ==> line == old(Lines())[0] && Lines() == old(Lines())[1..] && lineno == old(lineno) + 1
    {
      if p.None? {
        return false, "";
      }
      var found := Find(content, '\n', p.value);
      if found < |content| {
        line := content[p.value..found];
        p := Some(found + 1);
      } else {
        line := content[p.value..];
        p := None;
      }
      lineno := lineno + 1;
      more := true;
    }

    /** `next_token`. `failed` says that the check against reading past the end would fire. */
    method NextToken() returns (token: Option<Token>, failed: bool)
      requires Valid()
      modifies this
      ensures Valid() && (wasEndOfFile <==> old(wasEndOfFile) || old(Rest()) == [])
      ensures failed <==> old(wasEndOfFile)
      ensures if old(Rest()) == [] then token == None && Rest() == []
              else token == Some(old(Rest())[0].token) && lineno == old(Rest())[0].line && Rest() == old(Rest())[1..]
    {
      failed := false;
      while true
        invariant Valid() && wasEndOfFile == old(wasEndOfFile) && Rest() == old(Rest())
        decreases |Lines()|
      {
        var more, line := NextLine();
        if !more {
          break;
        }
        var t := Classify(line);
        if !t.Blank? {
          return Some(t), false;
        }
      }
      token, failed := None, wasEndOfFile;
      wasEndOfFile := true;
    }
  }

  // ---------------------------------------------------------------------------------
  // What a file means
  // ---------------------------------------------------------------------------------

  datatype Property = Property(value: string, line: nat)

  type Properties = map<string, Property>

  predicate StartsWith(s: string, prefix: string) {
    prefix <= s
  }

  predicate EndsWith(s: string, suffix: string) {
    |suffix| <= |s| && s[|s| - |suffix|..] == suffix
  }

  function WithoutSlashes(s: string): string {
    if s != [] && s[|s| - 1] == '/' then WithoutSlashes(s[..|s| - 1]) else s
  }

  /** The line says that the binary is in the directory of a section. Whether it is in a directory is up to the file
      system. */
  predicate Directs(t: Token, contains: string -> bool) {
    t.Assign? && StartsWith(t.name, "dir.") && WithoutSlashes(t.value) != [] && contains(WithoutSlashes(t.value))
  }

  datatype Choice = NoSection | Chosen(name: string, rest: seq<Located>)

  /** The first directory that contains the binary names the section. Directories come before all sections. */
  function Choose(tokens: seq<Located>, contains: string -> bool): Choice {
    if tokens == [] || tokens[0].token.Section? then NoSection
    else if Directs(tokens[0].token, contains) then Chosen(tokens[0].token.name[4..], tokens[1..])
    else Choose(tokens[1..], contains)
  }

  /** What comes after the line that starts the section. */
  function Seek(tokens: seq<Located>, name: string): Option<seq<Located>> {
    if tokens == [] then None
    else if tokens[0].token == Section(name) then Some(tokens[1..])
    else Seek(tokens[1..], name)
  }

  /** The lines of a section. */
  function Body(tokens: seq<Located>): seq<Located> {
    if tokens == [] || tokens[0].token.Section? then [] else [tokens[0]] + Body(tokens[1..])
  }

  /** What separates values that are appended, if that is allowed. */
  function Separator(name: string): Option<string> {
    if EndsWith(name, ".links") || EndsWith(name, ".namespaces") then Some(",")
    else if EndsWith(name, ".paths") || EndsWith(name, ".shared_libs") || EndsWith(name, ".whitelisted")
            || EndsWith(name, ".allowed_libs") then Some(":")
    else None
  }

  /** What a line does to the properties. */
  function Applied(props: Properties, l: Located): Properties {
    match l.token
    case Assign(name, value) => props[name := Property(value, l.line)]
    case Append(name, value) =>
      if name !in props then props[name := Property(value, l.line)]
      else if Separator(name).Some?
      then props[name := Property(props[name].value + Separator(name).value + value, props[name].line)]
      else props
    case _ => props
  }

  function Folded(props: Properties, lines: seq<Located>): Properties
    decreases |lines|
  {
    if lines == [] then props else Folded(Applied(props, lines[0]), lines[1..])
  }

  /** The properties for a binary, if there is a section for it. */
  function MeaningOf(tokens: seq<Located>, contains: string -> bool): Option<Properties> {
    var choice := Choose(tokens, contains);
    if choice.NoSection? then None
    else
      var section := Seek(choice.rest, choice.name);
      if section.None? then None else Some(Folded(map[], Body(section.value)))
  }

  function Meaning(content: string, contains: string -> bool): Option<Properties> {
    MeaningOf(Tokens(Split(content, '\n', 0), 1), contains)
  }

  // ---------------------------------------------------------------------------------
  // The three loops
  // ---------------------------------------------------------------------------------

  method ChooseSection(cp: ConfigParser, contains: string -> bool) returns (choice: Option<string>, failed: bool)
    requires cp.Valid() && !cp.wasEndOfFile
    modifies cp
    ensures cp.Valid() && !failed
    ensures var c := Choose(old(cp.Rest()), contains);
            if c.NoSection? then choice == None else choice == Some(c.name) && cp.Rest() == c.rest && !cp.wasEndOfFile
  {
    failed := false;
    while true
      invariant cp.Valid() && !cp.wasEndOfFile && !failed
      invariant Choose(cp.Rest(), contains) == Choose(old(cp.Rest()), contains)
      decreases |cp.Rest()|
    {
      var token;
      token, failed := cp.NextToken();
      if token.None? || token.value.Section? {
        return None, failed;
      }
      if Directs(token.value, contains) {
        return Some(token.value.name[4..]), failed;
      }
    }
  }

  method SeekSection(cp: ConfigParser, name: string) returns (found: bool, failed: bool)
    requires cp.Valid() && !cp.wasEndOfFile
    modifies cp
    ensures cp.Valid() && !failed
    ensures var s := Seek(old(cp.Rest()), name);
            if s.None? then !found else found && cp.Rest() == s.value && !cp.wasEndOfFile
  {
    failed := false;
    while true
      invariant cp.Valid() && !cp.wasEndOfFile && !failed
      invariant Seek(cp.Rest(), name) == Seek(old(cp.Rest()), name)
      decreases |cp.Rest()|
    {
      var token;
      token, failed := cp.NextToken();
      if token == Some(Section(name)) {
        return true, failed;
      }
      if token.None? {
        return false, failed;
      }
    }
  }

  method ReadSection(cp: ConfigParser) returns (props: Properties, failed: bool)
    requires cp.Valid() && !cp.wasEndOfFile
    modifies cp
    ensures cp.Valid() && !failed && props == Folded(map[], Body(old(cp.Rest())))
  {
    failed := false;
    props := map[];
    while true
      invariant cp.Valid() && !cp.wasEndOfFile && !failed
      invariant Folded(props, Body(cp.Rest())) == Folded(map[], Body(old(cp.Rest())))
      decreases |cp.Rest()|
    {
      ghost var body := Body(cp.Rest());
      var token;
      token, failed := cp.NextToken();
      if token.None? || token.value.Section? {
        assert body == [];
        break;
      }
      assert body[1..] == Body(cp.Rest());
      props := Applied(props, Located(token.value, cp.lineno));
    }
  }

  // ---------------------------------------------------------------------------------
  // What a property is in the end
  // ---------------------------------------------------------------------------------

  /** The line concerns the property. */
  predicate About(t: Token, name: string) {
    (t.Assign? || t.Append?) && t.name == name
  }

  /** A property depends on its own lines only. */
  lemma {:induction false} OwnLines(props: Properties, other: Properties, lines: seq<Located>, name: string)
    requires (name in props <==> name in other) && (name in props ==> props[name] == other[name])
    ensures var a, b := Folded(props, lines), Folded(other, Only(lines, name));
            (name in a <==> name in b) && (name in a ==> a[name] == b[name])
    decreases |lines|
  {
    if lines != [] {
      var rest := Only(lines[1..], name);
      if About(lines[0].token, name) {
        OwnLines(Applied(props, lines[0]), Applied(other, lines[0]), lines[1..], name);
        assert Only(lines, name)[1..] == rest;
      } else {
        OwnLines(Applied(props, lines[0]), other, lines[1..], name);
      }
    }
  }

  function Only(lines: seq<Located>, name: string): seq<Located> {
    if lines == [] then []
    else if About(lines[0].token, name) then [lines[0]] + Only(lines[1..], name)
    else Only(lines[1..], name)
  }

  /** An assignment makes everything before it void. */
  lemma {:induction false} LastAssignment(props: Properties, before: seq<Located>, l: Located, after: seq<Located>)
    requires l.token.Assign?
    ensures var a, b := Folded(props, before + [l] + after), Folded(map[], [l] + after);
            var name := l.token.name;
            name in a && name in b && a[name] == b[name]
    decreases |before|
  {
    var all := before + [l] + after;
    if before == [] {
      assert all == [l] + after && all[1..] == after;
      FoldedSame(Applied(props, l), Applied(map[], l), after, l.token.name);
    } else {
      assert all[1..] == before[1..] + [l] + after;
      LastAssignment(Applied(props, all[0]), before[1..], l, after);
    }
  }

  lemma {:induction false} FoldedSame(props: Properties, other: Properties, lines: seq<Located>, name: string)
    requires name in props && name in other && props[name] == other[name]
    ensures var a, b := Folded(props, lines), Folded(other, lines); name in a && name in b && a[name] == b[name]
    decreases |lines|
  {
    if lines != [] {
      FoldedSame(Applied(props, lines[0]), Applied(other, lines[0]), lines[1..], name);
    }
  }
}
