/** What a configuration file means, in terms of its lines. */
module ConfigMeaning {
  import opened Basics
  import opened ConfigFile

  // ---------------------------------------------------------------------------------
  // What a line says
  // ---------------------------------------------------------------------------------

  ghost predicate Space(c: char)
  {
    c == ' ' || c == '\t' || c == '\n' || c as int == 11 || c as int == 12 || c == '\r'
  }

  ghost predicate Spaces(s: string)
  {
    forall i :: 0 <= i < |s| ==> Space(s[i])
  }

  ghost predicate Around(s: string, before: string, t: string, after: string)
  {
    s == before + t + after && Spaces(before) && Spaces(after)
  }

  /** `t` is `s` without the white space around it. */
  ghost predicate Trimmed(s: string, t: string)
  {
    && (exists before, after :: Around(s, before, t, after))
    && (t != "" ==> !Space(t[0]) && !Space(t[|t| - 1]))
  }

  lemma {:induction false} TrimLeftIs(s: string) returns (before: string)
    ensures s == before + TrimLeft(s) && Spaces(before) && (TrimLeft(s) != [] ==> !Space(TrimLeft(s)[0]))
  {
    if s != [] && IsSpace(s[0]) {
      before := TrimLeftIs(s[1..]);
      before := [s[0]] + before;
    } else {
      before := [];
    }
  }

  lemma {:induction false} TrimRightIs(s: string) returns (after: string)
    ensures s == TrimRight(s) + after && Spaces(after) && (TrimRight(s) != [] ==> !Space(TrimRight(s)[|TrimRight(s)| - 1]))
  {
    if s != [] && IsSpace(s[|s| - 1]) {
      after := TrimRightIs(s[..|s| - 1]);
      after := after + [s[|s| - 1]];
    } else {
      after := [];
    }
  }

  lemma TrimIs(s: string)
    ensures Trimmed(s, Trim(s))
  {
    var before := TrimLeftIs(s);
    var after := TrimRightIs(TrimLeft(s));
    assert Around(s, before, Trim(s), after);
    assert Trim(s) <= TrimLeft(s);
  }

  lemma {:induction false} TrimLeftOnly(before: string, s: string)
    requires Spaces(before) && (s != "" ==> !Space(s[0]))
    ensures TrimLeft(before + s) == s
  {
    if before == [] {
      assert before + s == s;
    } else {
      assert (before + s)[1..] == before[1..] + s;
      TrimLeftOnly(before[1..], s);
    }
  }

  lemma {:induction false} TrimRightOnly(s: string, after: string)
    requires Spaces(after) && (s != "" ==> !Space(s[|s| - 1]))
    ensures TrimRight(s + after) == s
  {
    if after == [] {
      assert s + after == s;
    } else {
      assert (s + after)[..|s + after| - 1] == s + after[..|after| - 1];
      TrimRightOnly(s, after[..|after| - 1]);
    }
  }

  lemma TrimOnly(s: string, t: string)
    requires Trimmed(s, t)
    ensures t == Trim(s)
  {
    var before, after :| Around(s, before, t, after);
    if t == "" {
      assert s == before + after && Spaces(s);
      assert s == s + "";
      TrimLeftOnly(s, "");
    } else {
      assert s == before + (t + after);
      TrimLeftOnly(before, t + after);
      TrimRightOnly(t, after);
    }
  }

  /** The first `#` of the line, if there is one, is at `n`. */
  ghost predicate CommentAt(raw: string, n: nat)
  {
    n <= |raw| && '#' !in raw[..n] && (n < |raw| ==> raw[n] == '#')
  }

  /** The part of a line before a comment, without the white space around it. */
  ghost predicate Content(raw: string, line: string)
  {
    exists n: nat :: CommentAt(raw, n) && Trimmed(raw[..n], line)
  }

  ghost predicate Bracketed(line: string)
  {
    |line| >= 2 && line[0] == '[' && line[|line| - 1] == ']'
  }

  ghost predicate HasAppend(line: string)
  {
    exists k :: AppendHere(line, k)
  }

  /** The first `=` of the line is at `k`. */
  ghost predicate AssignAt(line: string, k: nat, name: string, value: string)
  {
    k < |line| && line[k] == '=' && '=' !in line[..k] && Trimmed(line[..k], name) && Trimmed(line[k + 1..], value)
  }

  /** The first `+=` of the line is at `k`. */
  ghost predicate AppendAt(line: string, k: nat, name: string, value: string)
  {
    && k + 1 < |line| && line[k] == '+' && line[k + 1] == '=' && !HasAppend(line[..k + 1])
    && Trimmed(line[..k], name) && Trimmed(line[k + 2..], value)
  }

  ghost predicate Reads(line: string, t: Token)
  {
    match t
    case Blank => line == ""
    case Section(name) => line == "[" + name + "]"
    case Assign(name, value) => !Bracketed(line) && !HasAppend(line) && exists k: nat :: AssignAt(line, k, name, value)
    case Append(name, value) => !Bracketed(line) && exists k: nat :: AppendAt(line, k, name, value)
    case Bad => line != "" && !Bracketed(line) && '=' !in line
  }

  ghost predicate Says(raw: string, t: Token)
  {
    exists line :: Content(raw, line) && Reads(line, t)
  }

  lemma AppendReads(line: string)
    requires FindAppend(line, 0) < |line|
    ensures var k := FindAppend(line, 0); AppendAt(line, k, Trim(line[..k]), Trim(line[k + 2..]))
  {
    var k := FindAppend(line, 0);
    TrimIs(line[..k]);
    TrimIs(line[k + 2..]);
    FirstAppend(line);
  }

  lemma FirstAppend(line: string)
    requires FindAppend(line, 0) < |line|
    ensures !HasAppend(line[..FindAppend(line, 0) + 1])
  {
    var n := FindAppend(line, 0);
    var start := line[..n + 1];
    forall k ensures !AppendHere(start, k) {
      assert 0 <= k < n ==> !AppendHere(line, k);
    }
  }

  lemma AssignReads(line: string)
    requires Find(line, '=', 0) < |line|
    ensures var k := Find(line, '=', 0); AssignAt(line, k, Trim(line[..k]), Trim(line[k + 1..]))
  {
    var k := Find(line, '=', 0);
    assert '=' !in line[..k];
    TrimIs(line[..k]);
    TrimIs(line[k + 1..]);
  }

  lemma ReadLineIs(line: string)
    ensures Reads(line, ReadLine(line))
  {
    if Bracketed(line) {
      assert line == "[" + line[1..|line| - 1] + "]";
    } else if FindAppend(line, 0) < |line| {
      AppendReads(line);
    } else {
      assert !HasAppend(line);
      if Find(line, '=', 0) < |line| {
        AssignReads(line);
      }
    }
  }

  lemma ContentIs(raw: string)
    ensures Content(raw, Trim(raw[..Find(raw, '#', 0)]))
  {
    var n := Find(raw, '#', 0);
    assert CommentAt(raw, n);
    TrimIs(raw[..n]);
  }

  lemma ContentOnly(raw: string, line: string)
    requires Content(raw, line)
    ensures line == Trim(raw[..Find(raw, '#', 0)])
  {
    var n: nat :| CommentAt(raw, n) && Trimmed(raw[..n], line);
    CommentOnly(raw, n);
    TrimOnly(raw[..n], line);
  }

  lemma CommentOnly(raw: string, n: nat)
    requires CommentAt(raw, n)
    ensures n == Find(raw, '#', 0)
  {
    FindOnly(raw, '#', 0, n);
  }

  lemma {:induction false} FindOnly(s: string, c: char, from: nat, n: nat)
    requires from <= n <= |s| && c !in s[..n] && (n < |s| ==> s[n] == c)
    ensures n == Find(s, c, from)
    decreases n - from
  {
    if from < n {
      assert s[from] == s[..n][from];
      FindOnly(s, c, from + 1, n);
    }
  }

  lemma {:induction false} FindAppendOnly(s: string, from: nat, n: nat)
    requires from <= n < |s| - 1 && s[n] == '+' && s[n + 1] == '=' && !HasAppend(s[..n + 1])
    ensures n == FindAppend(s, from)
    decreases n - from
  {
    if from < n {
      assert !AppendHere(s[..n + 1], from);
      FindAppendOnly(s, from + 1, n);
    }
  }

  lemma AssignOnly(line: string, k: nat, name: string, value: string)
    requires AssignAt(line, k, name, value)
    ensures k == Find(line, '=', 0) && name == Trim(line[..k]) && value == Trim(line[k + 1..])
  {
    TrimOnly(line[..k], name);
    TrimOnly(line[k + 1..], value);
    FindOnly(line, '=', 0, k);
  }

  lemma AppendOnly(line: string, k: nat, name: string, value: string)
    requires AppendAt(line, k, name, value)
    ensures k == FindAppend(line, 0) && name == Trim(line[..k]) && value == Trim(line[k + 2..])
  {
    TrimOnly(line[..k], name);
    TrimOnly(line[k + 2..], value);
    FindAppendOnly(line, 0, k);
  }

  lemma ReadLineOnly(line: string, t: Token)
    requires Reads(line, t)
    ensures t == ReadLine(line)
  {
    match t
    case Assign(name, value) => AssignReadOnly(line, name, value);
    case Append(name, value) => AppendReadOnly(line, name, value);
    case Section(name) => assert line[1..|line| - 1] == name;
    case _ =>
  }

  lemma AssignReadOnly(line: string, name: string, value: string)
    requires Reads(line, Assign(name, value))
    ensures Assign(name, value) == ReadLine(line)
  {
    var k: nat :| AssignAt(line, k, name, value);
    AssignOnly(line, k, name, value);
  }

  lemma AppendReadOnly(line: string, name: string, value: string)
    requires Reads(line, Append(name, value))
    ensures Append(name, value) == ReadLine(line)
  {
    var k: nat :| AppendAt(line, k, name, value);
    AppendOnly(line, k, name, value);
  }

  /** A line is classified as what it says, and it says one thing. */
  lemma ClassifyIs(raw: string, t: Token)
    ensures Says(raw, t) <==> t == Classify(raw)
  {
    var line := Trim(raw[..Find(raw, '#', 0)]);
    ContentIs(raw);
    ReadLineIs(line);
    if Says(raw, t) {
      var other :| Content(raw, other) && Reads(other, t);
      ContentOnly(raw, other);
      ReadLineOnly(line, t);
    }
  }

  // ---------------------------------------------------------------------------------
  // Which lines count
  // ---------------------------------------------------------------------------------

  ghost predicate Slashes(s: string)
  {
    forall i :: 0 <= i < |s| ==> s[i] == '/'
  }

  /** `dir` is the value without the slashes at its end. */
  ghost predicate Directory(value: string, dir: string)
  {
    dir <= value && Slashes(value[|dir|..]) && dir != "" && dir[|dir| - 1] != '/'
  }

  /** The line lists a directory of the section, and the binary is in it. */
  ghost predicate Lists(t: Token, contains: string -> bool, section: string)
  {
    t.Assign? && t.name == "dir." + section && exists dir :: Directory(t.value, dir) && contains(dir)
  }

  lemma {:induction false} WithoutSlashesIs(value: string)
    ensures WithoutSlashes(value) == "" ==> Slashes(value)
    ensures WithoutSlashes(value) != "" ==> Directory(value, WithoutSlashes(value))
  {
    if value != [] && value[|value| - 1] == '/' {
      WithoutSlashesIs(value[..|value| - 1]);
    }
  }

  lemma DirectoryOnce(value: string, a: string, b: string)
    requires Directory(value, a) && Directory(value, b)
    ensures a == b
  {
    if |a| < |b| {
      Longer(value, a, b);
    } else if |b| < |a| {
      Longer(value, b, a);
    }
  }

  lemma Longer(value: string, dir: string, b: string)
    requires Directory(value, dir) && b <= value && |dir| < |b|
    ensures b[|b| - 1] == '/'
  {
    assert b[|b| - 1] == value[|dir|..][|b| - 1 - |dir|];
  }

  lemma DirectsIs(t: Token, contains: string -> bool, section: string)
    ensures Lists(t, contains, section) <==> Directs(t, contains) && t.name[4..] == section
  {
    if t.Assign? {
      WithoutSlashesIs(t.value);
      if Lists(t, contains, section) {
        var dir :| Directory(t.value, dir) && contains(dir);
        assert t.value[|dir| - 1] == dir[|dir| - 1];
        if WithoutSlashes(t.value) != "" {
          DirectoryOnce(t.value, dir, WithoutSlashes(t.value));
        }
      }
    }
  }

  /** The first line that lists a directory with the binary, from `k` on, where no section has begun. */
  ghost predicate ChosenAt(ts: seq<Token>, contains: string -> bool, k: nat, d: nat, section: string)
  {
    && k <= d < |ts| && Lists(ts[d], contains, section)
    && forall i :: k <= i < d ==> Skipped(ts[i], contains)
  }

  ghost predicate Skipped(t: Token, contains: string -> bool)
  {
    !t.Section? && forall section :: !Lists(t, contains, section)
  }

  /** The first line from `k` on that begins the section. */
  ghost predicate BeginsAt(ts: seq<Token>, k: nat, section: string, s: nat)
  {
    k <= s < |ts| && ts[s] == Section(section) && forall i :: k <= i < s ==> ts[i] != Section(section)
  }

  /** The first line from `k` on that begins any section, or the end. */
  ghost predicate EndsAt(ts: seq<Token>, k: nat, e: nat)
  {
    && k <= e <= |ts| && (e < |ts| ==> ts[e].Section?)
    && forall i :: k <= i < e ==> !ts[i].Section?
  }

  /** The lines from `b` up to `e` are the section for the binary. */
  ghost predicate SectionOf(ts: seq<Token>, contains: string -> bool, b: nat, e: nat)
  {
    && b > 0 && EndsAt(ts, b, e)
    && exists d: nat, section :: ChosenAt(ts, contains, 0, d, section) && BeginsAt(ts, d + 1, section, b - 1)
  }

  // ---------------------------------------------------------------------------------
  // What a property is
  // ---------------------------------------------------------------------------------

  ghost predicate EndsIn(name: string, suffix: string)
  {
    exists stem :: name == stem + suffix
  }

  /** Names whose values are appended with a comma. */
  ghost predicate Comma(name: string)
  {
    EndsIn(name, ".links") || EndsIn(name, ".namespaces")
  }

  /** Names whose values are appended with a colon. */
  ghost predicate Colon(name: string)
  {
    EndsIn(name, ".paths") || EndsIn(name, ".shared_libs") || EndsIn(name, ".whitelisted") || EndsIn(name, ".allowed_libs")
  }

  /** `js` are the lines from `js[0]` on that are about the property, and `values` are their values. `js[0]` is the last
      line that assigns to it or, if there is none, the first one that appends to it. */
  ghost predicate Gathered(ts: seq<Token>, b: nat, e: nat, name: string, js: seq<nat>, values: seq<string>)
    requires e <= |ts|
  {
    && |js| == |values| > 0 && b <= js[0]
    && (forall i, k :: 0 <= i < k < |js| ==> js[i] < js[k])
    && (forall j :: js[0] <= j < e ==> (j in js <==> About(ts[j], name)))
    && (forall i :: 0 <= i < |js| ==> js[i] < e)
    && (ts[js[0]] == Assign(name, values[0])
        || (ts[js[0]] == Append(name, values[0]) && forall j :: b <= j < js[0] ==> !About(ts[j], name)))
    && (forall i :: 0 < i < |js| ==> ts[js[i]] == Append(name, values[i]))
  }

  /** The value of the property, and the number of the line it comes from. */
  ghost predicate IsValue(p: Property, name: string, js: seq<nat>, values: seq<string>)
    requires |js| == |values| > 0
  {
    && p.line == js[0] + 1
    && p.value == if Comma(name) then Joined(values, ',') else if Colon(name) then Joined(values, ':') else values[0]
  }

  ghost predicate Occurs(ts: seq<Token>, b: nat, e: nat, name: string)
    requires e <= |ts|
  {
    exists j :: b <= j < e && About(ts[j], name)
  }

  ghost predicate Stands(ts: seq<Token>, b: nat, e: nat, name: string, props: Properties)
    requires e <= |ts|
  {
    && (name in props <==> Occurs(ts, b, e, name))
    && (name in props ==> exists js, values :: Gathered(ts, b, e, name, js, values) && IsValue(props[name], name, js, values))
  }

  /** What the lines from `b` up to `e` say. */
  ghost predicate AllStand(ts: seq<Token>, b: nat, e: nat, props: Properties)
    requires e <= |ts|
  {
    forall name :: Stands(ts, b, e, name, props)
  }

  /** The tokens are what the lines say. */
  ghost predicate AllSay(lines: seq<string>, ts: seq<Token>)
  {
    |ts| == |lines| && forall i :: 0 <= i < |ts| ==> Says(lines[i], ts[i])
  }

  /** The properties for a binary are those of its section. */
  ghost predicate SectionMeant(ts: seq<Token>, contains: string -> bool, props: Option<Properties>)
  {
    && (props.Some? <==> exists b: nat, e: nat :: SectionOf(ts, contains, b, e))
    && (forall b: nat, e: nat :: SectionOf(ts, contains, b, e) && props.Some? ==> AllStand(ts, b, e, props.value))
  }

  ghost predicate Means(content: string, contains: string -> bool, props: Option<Properties>)
  {
    exists ts :: AllSay(Split(content, '\n', 0), ts) && SectionMeant(ts, contains, props)
  }

  // ---------------------------------------------------------------------------------
  // The tokens, line by line
  // ---------------------------------------------------------------------------------

  ghost function Classified(lines: seq<string>): seq<Token>
  {
    seq(|lines|, i requires 0 <= i < |lines| => Classify(lines[i]))
  }

  /** The tokens from line `k` on. */
  ghost function From(ts: seq<Token>, k: nat): seq<Located>
    requires k <= |ts|
    decreases |ts| - k
  {
    if k == |ts| then [] else (if ts[k].Blank? then [] else [Located(ts[k], k + 1)]) + From(ts, k + 1)
  }

  lemma {:induction false} TokensFrom(lines: seq<string>, k: nat)
    requires k <= |lines|
    ensures Tokens(lines[k..], k + 1) == From(Classified(lines), k)
    decreases |lines| - k
  {
    if k < |lines| {
      TokensFrom(lines, k + 1);
      assert lines[k..][1..] == lines[k + 1..];
    }
  }

  lemma FromOther(ts: seq<Token>, k: nat)
    requires k < |ts| && !ts[k].Blank?
    ensures From(ts, k) != [] && From(ts, k)[0] == Located(ts[k], k + 1) && From(ts, k)[1..] == From(ts, k + 1)
  {
  }

  lemma FromBlank(ts: seq<Token>, k: nat)
    requires k < |ts| && ts[k].Blank?
    ensures From(ts, k) == From(ts, k + 1)
  {
  }

  lemma FromEnd(ts: seq<Token>)
    ensures From(ts, |ts|) == []
  {
  }

  lemma SkippedIs(t: Token, contains: string -> bool)
    ensures Skipped(t, contains) <==> !t.Section? && !Directs(t, contains)
  {
    if Directs(t, contains) {
      DirectsIs(t, contains, t.name[4..]);
      assert Lists(t, contains, t.name[4..]);
    }
    if !t.Section? && !Skipped(t, contains) {
      var s :| Lists(t, contains, s);
      DirectsIs(t, contains, s);
    }
  }

  lemma ChooseSkips(ts: seq<Token>, contains: string -> bool, k: nat)
    requires k < |ts| && Skipped(ts[k], contains)
    ensures Choose(From(ts, k), contains) == Choose(From(ts, k + 1), contains)
  {
    SkippedIs(ts[k], contains);
    if ts[k].Blank? {
      FromBlank(ts, k);
    } else {
      FromOther(ts, k);
    }
  }

  lemma {:induction false} ChooseAt(ts: seq<Token>, contains: string -> bool, k: nat, d: nat, section: string)
    requires ChosenAt(ts, contains, k, d, section)
    ensures Choose(From(ts, k), contains) == Chosen(section, From(ts, d + 1))
    decreases d - k
  {
    if k == d {
      DirectsIs(ts[d], contains, section);
      FromOther(ts, d);
    } else {
      ChooseSkips(ts, contains, k);
      ChooseAt(ts, contains, k + 1, d, section);
    }
  }

  lemma {:induction false} ChooseFinds(ts: seq<Token>, contains: string -> bool, k: nat) returns (d: nat)
    requires k <= |ts|
    ensures var c := Choose(From(ts, k), contains); c.Chosen? ==> ChosenAt(ts, contains, k, d, c.name)
    decreases |ts| - k
  {
    d := k;
    if k == |ts| {
      FromEnd(ts);
    } else if Skipped(ts[k], contains) {
      ChooseSkips(ts, contains, k);
      d := ChooseFinds(ts, contains, k + 1);
    } else {
      SkippedIs(ts[k], contains);
      FromOther(ts, k);
      if Directs(ts[k], contains) {
        DirectsIs(ts[k], contains, ts[k].name[4..]);
      }
    }
  }

  lemma SeekSkips(ts: seq<Token>, k: nat, section: string)
    requires k < |ts| && ts[k] != Section(section)
    ensures Seek(From(ts, k), section) == Seek(From(ts, k + 1), section)
  {
    if ts[k].Blank? {
      FromBlank(ts, k);
    } else {
      FromOther(ts, k);
    }
  }

  lemma {:induction false} SeekAt(ts: seq<Token>, k: nat, section: string, s: nat)
    requires BeginsAt(ts, k, section, s)
    ensures Seek(From(ts, k), section) == Some(From(ts, s + 1))
    decreases s - k
  {
    if k == s {
      FromOther(ts, s);
    } else {
      SeekSkips(ts, k, section);
      SeekAt(ts, k + 1, section, s);
    }
  }

  lemma {:induction false} SeekFinds(ts: seq<Token>, k: nat, section: string) returns (s: nat)
    requires k <= |ts|
    ensures Seek(From(ts, k), section).Some? ==> BeginsAt(ts, k, section, s)
    decreases |ts| - k
  {
    s := k;
    if k == |ts| {
      FromEnd(ts);
    } else if ts[k] != Section(section) {
      SeekSkips(ts, k, section);
      s := SeekFinds(ts, k + 1, section);
    }
  }

  lemma {:induction false} EndFinds(ts: seq<Token>, k: nat) returns (e: nat)
    requires k <= |ts|
    ensures EndsAt(ts, k, e)
    decreases |ts| - k
  {
    e := k;
    if k < |ts| && !ts[k].Section? {
      e := EndFinds(ts, k + 1);
    }
  }

  // ---------------------------------------------------------------------------------
  // The properties, line by line
  // ---------------------------------------------------------------------------------

  /** What the lines from `b` up to `e` do. */
  ghost function Done(ts: seq<Token>, b: nat, e: nat): Properties
    requires b <= e <= |ts|
    decreases e
  {
    if e == b then map[] else Applied(Done(ts, b, e - 1), Located(ts[e - 1], e))
  }

  lemma {:induction false} FoldedIs(ts: seq<Token>, b: nat, k: nat, e: nat)
    requires b <= k && EndsAt(ts, k, e)
    ensures Folded(Done(ts, b, k), Body(From(ts, k))) == Done(ts, b, e)
    decreases e - k
  {
    if k == e {
      if e == |ts| {
        FromEnd(ts);
      } else {
        FromOther(ts, e);
      }
    } else {
      FoldedIs(ts, b, k + 1, e);
      if ts[k].Blank? {
        FromBlank(ts, k);
      } else {
        FromOther(ts, k);
        assert Body(From(ts, k)) == [From(ts, k)[0]] + Body(From(ts, k + 1));
        assert Body(From(ts, k))[1..] == Body(From(ts, k + 1));
      }
    }
  }

  lemma EndsInIs(name: string, suffix: string)
    ensures EndsWith(name, suffix) <==> EndsIn(name, suffix)
  {
    if EndsWith(name, suffix) {
      assert name == name[..|name| - |suffix|] + suffix;
    }
  }

  lemma SeparatorIs(name: string)
    ensures Separator(name) == if Comma(name) then Some(",") else if Colon(name) then Some(":") else None
  {
    EndsInIs(name, ".links");
    EndsInIs(name, ".namespaces");
    EndsInIs(name, ".paths");
    EndsInIs(name, ".shared_libs");
    EndsInIs(name, ".whitelisted");
    EndsInIs(name, ".allowed_libs");
  }

  lemma {:induction false} JoinedLast(values: seq<string>, value: string, c: char)
    requires values != []
    ensures Joined(values + [value], c) == Joined(values, c) + [c] + value
  {
    var all := values + [value];
    assert all[1..] == values[1..] + [value];
    if |values| == 1 {
      assert all[1..] == [value];
    } else {
      JoinedLast(values[1..], value, c);
    }
  }

  /** A line that is not about the property changes nothing. */
  lemma StandsOther(ts: seq<Token>, b: nat, e: nat, name: string, props: Properties, after: Properties)
    requires b <= e < |ts| && Stands(ts, b, e, name, props) && !About(ts[e], name)
    requires (name in after <==> name in props) && (name in props ==> after[name] == props[name])
    ensures Stands(ts, b, e + 1, name, after)
  {
    if j :| b <= j < e && About(ts[j], name) {
      assert Occurs(ts, b, e + 1, name);
    }
    if name in props {
      var js, values :| Gathered(ts, b, e, name, js, values) && IsValue(props[name], name, js, values);
      assert Gathered(ts, b, e + 1, name, js, values);
    }
  }

  /** A line that sets the property. */
  lemma StandsSet(ts: seq<Token>, b: nat, e: nat, name: string, value: string, after: Properties)
    requires b <= e < |ts| && name in after && after[name] == Property(value, e + 1)
    requires ts[e] == Assign(name, value) || (ts[e] == Append(name, value) && !Occurs(ts, b, e, name))
    ensures Stands(ts, b, e + 1, name, after)
  {
    assert About(ts[e], name);
    assert Gathered(ts, b, e + 1, name, [e], [value]);
    assert IsValue(after[name], name, [e], [value]);
  }

  lemma GatheredMore(ts: seq<Token>, b: nat, e: nat, name: string, js: seq<nat>, values: seq<string>, value: string)
    requires e < |ts| && Gathered(ts, b, e, name, js, values) && ts[e] == Append(name, value)
    ensures Gathered(ts, b, e + 1, name, js + [e], values + [value])
  {
    forall j | js[0] <= j < e + 1 ensures j in js + [e] <==> About(ts[j], name) {
    }
  }

  lemma ValueMore(p: Property, name: string, js: seq<nat>, values: seq<string>, e: nat, value: string, q: Property)
    requires |js| == |values| > 0 && IsValue(p, name, js, values)
    requires q == if Separator(name).Some? then Property(p.value + Separator(name).value + value, p.line) else p
    ensures IsValue(q, name, js + [e], values + [value])
  {
    SeparatorIs(name);
    JoinedLast(values, value, ',');
    JoinedLast(values, value, ':');
  }

  /** A line that appends to the property. */
  lemma StandsMore(ts: seq<Token>, b: nat, e: nat, name: string, value: string, props: Properties, after: Properties)
    requires b <= e < |ts| && Stands(ts, b, e, name, props) && name in props && ts[e] == Append(name, value)
    requires after == Applied(props, Located(ts[e], e + 1))
    ensures Stands(ts, b, e + 1, name, after)
  {
    var js, values :| Gathered(ts, b, e, name, js, values) && IsValue(props[name], name, js, values);
    GatheredMore(ts, b, e, name, js, values, value);
    ValueMore(props[name], name, js, values, e, value, after[name]);
    assert About(ts[e], name);
  }

  /** A property is what its own lines say. */
  lemma {:induction false} DoneStands(ts: seq<Token>, b: nat, e: nat, name: string)
    requires b <= e <= |ts|
    ensures Stands(ts, b, e, name, Done(ts, b, e))
    decreases e
  {
    if b < e {
      DoneStands(ts, b, e - 1, name);
      LineStands(ts, b, e - 1, name, Done(ts, b, e - 1));
    }
  }

  lemma LineStands(ts: seq<Token>, b: nat, e: nat, name: string, props: Properties)
    requires b <= e < |ts| && Stands(ts, b, e, name, props)
    ensures Stands(ts, b, e + 1, name, Applied(props, Located(ts[e], e + 1)))
  {
    var after, t := Applied(props, Located(ts[e], e + 1)), ts[e];
    if !About(t, name) {
      StandsOther(ts, b, e, name, props, after);
    } else if t.Append? && name in props {
      StandsMore(ts, b, e, name, t.value, props, after);
    } else {
      StandsSet(ts, b, e, name, t.value, after);
    }
  }

  lemma DoneStand(ts: seq<Token>, b: nat, e: nat)
    requires b <= e <= |ts|
    ensures AllStand(ts, b, e, Done(ts, b, e))
  {
    forall name ensures Stands(ts, b, e, name, Done(ts, b, e)) {
      DoneStands(ts, b, e, name);
    }
  }

  // ---------------------------------------------------------------------------------
  // The whole file
  // ---------------------------------------------------------------------------------

  lemma TokensAre(content: string)
    ensures Tokens(Split(content, '\n', 0), 1) == From(Classified(Split(content, '\n', 0)), 0)
  {
    var lines := Split(content, '\n', 0);
    TokensFrom(lines, 0);
    assert lines[0..] == lines;
  }

  lemma SectionFound(ts: seq<Token>, contains: string -> bool, d: nat, section: string, b: nat)
    requires b > 0 && ChosenAt(ts, contains, 0, d, section) && BeginsAt(ts, d + 1, section, b - 1)
    ensures MeaningOf(From(ts, 0), contains) == Some(Folded(map[], Body(From(ts, b))))
  {
    ChooseAt(ts, contains, 0, d, section);
    SeekAt(ts, d + 1, section, b - 1);
  }

  lemma SectionMeans(ts: seq<Token>, contains: string -> bool, b: nat, e: nat)
    requires SectionOf(ts, contains, b, e)
    ensures MeaningOf(From(ts, 0), contains).Some? && AllStand(ts, b, e, MeaningOf(From(ts, 0), contains).value)
  {
    var d: nat, section :| ChosenAt(ts, contains, 0, d, section) && BeginsAt(ts, d + 1, section, b - 1);
    SectionFound(ts, contains, d, section, b);
    FoldedIs(ts, b, b, e);
    DoneStand(ts, b, e);
  }

  lemma MeansSection(ts: seq<Token>, contains: string -> bool) returns (b: nat, e: nat)
    requires MeaningOf(From(ts, 0), contains).Some?
    ensures SectionOf(ts, contains, b, e)
  {
    var d := ChooseFinds(ts, contains, 0);
    var section := Choose(From(ts, 0), contains).name;
    ChooseAt(ts, contains, 0, d, section);
    var s := SeekFinds(ts, d + 1, section);
    b := s + 1;
    e := EndFinds(ts, b);
  }

  lemma AllMeant(ts: seq<Token>, contains: string -> bool)
    ensures SectionMeant(ts, contains, MeaningOf(From(ts, 0), contains))
  {
    if MeaningOf(From(ts, 0), contains).Some? {
      var b, e := MeansSection(ts, contains);
    }
    forall b: nat, e: nat | SectionOf(ts, contains, b, e)
      ensures MeaningOf(From(ts, 0), contains).Some? && AllStand(ts, b, e, MeaningOf(From(ts, 0), contains).value)
    {
      SectionMeans(ts, contains, b, e);
    }
  }

  /** The three loops find what the lines of the file say. */
  lemma MeaningMeans(content: string, contains: string -> bool)
    ensures Means(content, contains, Meaning(content, contains))
  {
    var lines := Split(content, '\n', 0);
    TokensAre(content);
    forall i | 0 <= i < |lines| ensures Says(lines[i], Classified(lines)[i]) {
      ClassifyIs(lines[i], Classify(lines[i]));
    }
    AllMeant(Classified(lines), contains);
  }

  /** `parse_config_file`, once the file has been read. Its result is what the file means, and the parser is never
      asked for a token after the end. */
  method ParseConfigFile(content: string, contains: string -> bool) returns (props: Option<Properties>, failed: bool)
    ensures !failed && props == Meaning(content, contains) && Means(content, contains, props)
  {
    MeaningMeans(content, contains);
    var cp := new ConfigParser(content);
    var name;
    name, failed := ChooseSection(cp, contains);
    if name.None? {
      return None, failed;
    }
    var found;
    found, failed := SeekSection(cp, name.value);
    if !found {
      return None, failed;
    }
    var p;
    p, failed := ReadSection(cp);
    props := Some(p);
  }
}
