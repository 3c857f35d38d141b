/** From the properties of a configuration file to the namespaces of a process. */
module DefaultNamespaces {
  import opened Basics
  import opened ConfigFile
  import opened ConfigMeaning

  // ---------------------------------------------------------------------------------
  // Properties
  // ---------------------------------------------------------------------------------

  function GetString(props: Properties, name: string): string {
    if name in props then props[name].value else ""
  }

  function GetBool(props: Properties, name: string): bool {
    GetString(props, name) == "true"
  }

  /** A property that is there but empty is a list of one empty name. */
  function GetStrings(props: Properties, name: string): seq<string> {
    if name in props then
      var parts := Split(props[name].value, ',', 0);
      seq(|parts|, i requires 0 <= i < |parts| => Trim(parts[i]))
    else []
  }

  /** The list of a property: the parts between its commas, without the white space around them. */
  lemma GetStringsIs(props: Properties, name: string)
    ensures name !in props ==> GetStrings(props, name) == []
    ensures name in props ==> exists parts :: ListedAs(props[name].value, parts, GetStrings(props, name))
  {
    if name in props {
      var parts := Split(props[name].value, ',', 0);
      SplitJoined(props[name].value, ',', 0);
      SplitUnbroken(props[name].value, ',', 0);
      assert props[name].value[0..] == props[name].value;
      forall i | 0 <= i < |parts| ensures Trimmed(parts[i], GetStrings(props, name)[i]) {
        TrimIs(parts[i]);
      }
      assert ListedAs(props[name].value, parts, GetStrings(props, name));
    }
  }

  ghost predicate ListedAs(value: string, parts: seq<string>, names: seq<string>)
  {
    && parts != [] && Joined(parts, ',') == value && (forall part :: part in parts ==> ',' !in part)
    && |names| == |parts| && forall i :: 0 <= i < |parts| ==> Trimmed(parts[i], names[i])
  }

  // ---------------------------------------------------------------------------------
  // The configuration
  // ---------------------------------------------------------------------------------

  datatype Link = Link(to: string, libs: string, all: bool)

  datatype NamespaceConfig = NamespaceConfig(name: string, links: seq<Link>, isolated: bool, visible: bool)

  function Prefix(name: string): string {
    "namespace." + name
  }

  function LinkTo(props: Properties, name: string, to: string): Link {
    Link(to, GetString(props, Prefix(name) + ".link." + to + ".shared_libs"),
         GetBool(props, Prefix(name) + ".link." + to + ".allow_all_shared_libs"))
  }

  function LinkNames(props: Properties, name: string): seq<string> {
    GetStrings(props, Prefix(name) + ".links")
  }

  /** A link leads to a namespace of the configuration, and says which libraries it is for in one of two ways. */
  predicate Complete(l: Link) {
    l.all <==> l.libs == ""
  }

  ghost predicate LinksOk(props: Properties, names: set<string>, name: string)
  {
    forall to :: to in LinkNames(props, name) ==> to in names && Complete(LinkTo(props, name, to))
  }

  ghost predicate AllLinksOk(props: Properties, names: set<string>)
  {
    forall name :: name in names ==> LinksOk(props, names, name)
  }

  /** Namespaces are created in this order, and a name that is listed again is created again. */
  function AllNames(props: Properties): seq<string> {
    ["default"] + GetStrings(props, "additional.namespaces")
  }

  /** The names of the namespaces. */
  ghost function Names(props: Properties): set<string>
  {
    Elems(AllNames(props))
  }

  /** The configurations have these names, and the last one of a name is the one that is found. */
  ghost predicate Named(names: seq<string>, configs: seq<NamespaceConfig>, index: map<string, nat>)
  {
    && |configs| == |names|
    && forall i :: 0 <= i < |names| ==> configs[i].name == names[i] && names[i] in index && i <= index[names[i]]
  }

  predicate Empty(c: NamespaceConfig) {
    c.links == [] && !c.isolated && !c.visible
  }

  ghost predicate AllEmpty(configs: seq<NamespaceConfig>)
  {
    forall i :: 0 <= i < |configs| ==> Empty(configs[i])
  }

  /** The links of a configuration are those of the properties. */
  ghost predicate LinksAre(props: Properties, name: string, links: seq<Link>)
  {
    |links| == |LinkNames(props, name)| && forall i :: 0 <= i < |links| ==> links[i] == LinkTo(props, name, LinkNames(props, name)[i])
  }

  /** `configs[index[name]]` is the configuration of a namespace; a name that is listed again leaves an empty one. */
  ghost predicate Indexed(configs: seq<NamespaceConfig>, index: map<string, nat>)
  {
    && (forall name :: name in index ==> index[name] < |configs| && configs[index[name]].name == name)
    && (forall i :: 0 <= i < |configs| ==> configs[i].name in index)
  }

  ghost predicate Linkable(configs: seq<NamespaceConfig>, index: map<string, nat>)
  {
    forall i, k :: 0 <= i < |configs| && 0 <= k < |configs[i].links| ==>
      configs[i].links[k].to in index && Complete(configs[i].links[k])
  }

  /** Configurations of these names have been created, all of them empty. */
  ghost predicate Entered(names: seq<string>, configs: seq<NamespaceConfig>, index: map<string, nat>)
  {
    Indexed(configs, index) && AllEmpty(configs) && Named(names, configs, index) && index.Keys == Elems(names)
  }

  lemma EnteredMore(names: seq<string>, configs: seq<NamespaceConfig>, index: map<string, nat>, name: string)
    requires Entered(names, configs, index)
    ensures Entered(names + [name], configs + [NamespaceConfig(name, [], false, false)], index[name := |configs|])
  {
  }

  class Config {
    var configs: seq<NamespaceConfig>
    var index: map<string, nat>

    constructor ()
      ensures configs == [] && index == map[]
    {
      configs, index := [], map[];
    }

    method CreateNamespaceConfig(name: string)
      requires Indexed(configs, index)
      modifies this
      ensures Indexed(configs, index) && index == old(index)[name := |old(configs)|]
      ensures configs == old(configs) + [NamespaceConfig(name, [], false, false)]
    {
      index := index[name := |configs|];
      configs := configs + [NamespaceConfig(name, [], false, false)];
    }

    /** The links of one namespace, as far as they are in order. */
    method ReadLinks(props: Properties, name: string) returns (ok: bool, links: seq<Link>)
      ensures ok <==> LinksOk(props, index.Keys, name)
      ensures ok ==> LinksAre(props, name, links)
    {
      links := [];
      var names := LinkNames(props, name);
      for k := 0 to |names|
        invariant |links| == k && forall j :: 0 <= j < k ==> links[j] == LinkTo(props, name, names[j])
        invariant forall j :: 0 <= j < k ==> names[j] in index && Complete(links[j])
      {
        var to := names[k];
        if to !in index {
          return false, links;
        }
        var link := LinkTo(props, name, to);
        if !link.all && link.libs == "" {
          return false, links;
        }
        if link.all && link.libs != "" {
          return false, links;
        }
        links := links + [link];
      }
      ok := true;
    }

    /** `read_config_for_binary`, from the properties on. `versionOk` says that the file with the version, if it is to
        be read, is in order. */
    method Read(props: Properties, versionOk: bool) returns (ok: bool)
      modifies this
      ensures ok <==> Readable(props, versionOk)
      ensures !ok ==> configs == [] && index == map[]
      ensures ok ==> ReadAs(props, configs, index) && Linkable(configs, index)
    {
      configs, index := [], map[];
      CreateAll(props);
      assert index.Keys == Names(props);
      if GetBool(props, "enable.target.sdk.version") && !versionOk {
        configs, index := [], map[];
        return false;
      }
      ghost var created := configs;
      ok := LinkAll(props);
      if ok {
        StillNamed(AllNames(props), created, configs, index);
        LinkedLinkable(props, configs, index);
      } else {
        configs, index := [], map[];
      }
    }

    method CreateAll(props: Properties)
      requires configs == [] && index == map[]
      modifies this
      ensures Entered(AllNames(props), configs, index)
    {
      CreateNamespaceConfig("default");
      CreateEach(["default"], GetStrings(props, "additional.namespaces"));
    }

    method CreateEach(ghost before: seq<string>, additional: seq<string>)
      requires Entered(before, configs, index)
      modifies this
      ensures Entered(before + additional, configs, index)
    {
      for k := 0 to |additional|
        invariant Entered(before + additional[..k], configs, index)
      {
        EnteredMore(before + additional[..k], configs, index, additional[k]);
        assert before + additional[..k] + [additional[k]] == before + additional[..k + 1];
        CreateNamespaceConfig(additional[k]);
      }
      assert additional[..|additional|] == additional;
    }

    /** The loop over all namespaces, in any order. */
    method LinkAll(props: Properties) returns (ok: bool)
      requires Indexed(configs, index) && AllEmpty(configs)
      modifies this
      ensures index == old(index) && SameNames(old(configs), configs)
      ensures ok <==> AllLinksOk(props, index.Keys)
      ensures ok ==> Indexed(configs, index) && LinkedBut(props, configs, index, {})
    {
      var todo := index.Keys;
      while todo != {}
        invariant index == old(index) && SameNames(old(configs), configs) && Indexed(configs, index) && todo <= index.Keys
        invariant forall name :: name in index && name !in todo ==> LinksOk(props, index.Keys, name)
        invariant LinkedBut(props, configs, index, todo)
        decreases todo
      {
        var name :| name in todo;
        var good, links := ReadLinks(props, name);
        if !good {
          return false;
        }
        var isolated, visible := GetBool(props, Prefix(name) + ".isolated"), GetBool(props, Prefix(name) + ".visible");
        var c := NamespaceConfig(name, links, isolated, visible);
        LinkedStep(props, configs, index, todo, c);
        configs := configs[index[name] := c];
        todo := todo - {name};
      }
      ok := true;
    }
  }

  ghost predicate SameNames(before: seq<NamespaceConfig>, after: seq<NamespaceConfig>)
  {
    |after| == |before| && forall i :: 0 <= i < |before| ==> after[i].name == before[i].name
  }

  lemma StillNamed(names: seq<string>, before: seq<NamespaceConfig>, after: seq<NamespaceConfig>, index: map<string, nat>)
    requires Named(names, before, index) && SameNames(before, after)
    ensures Named(names, after, index)
  {
  }

  /** A property is there and has this value. */
  ghost predicate HasText(props: Properties, key: string, text: string)
  {
    key in props && props[key].value == text
  }

  ghost predicate FlagsAre(props: Properties, name: string, isolated: bool, visible: bool)
  {
    && (isolated <==> HasText(props, "namespace." + name + ".isolated", "true"))
    && (visible <==> HasText(props, "namespace." + name + ".visible", "true"))
  }

  /** The configurations are filled in, but for those in `todo`, which are empty, like those that are hidden. */
  ghost predicate LinkedBut(props: Properties, configs: seq<NamespaceConfig>, index: map<string, nat>, todo: set<string>)
    requires Indexed(configs, index)
  {
    forall i :: 0 <= i < |configs| ==> LinkedAt(props, configs[i], i, index, todo)
  }

  ghost predicate LinkedAt(props: Properties, c: NamespaceConfig, i: nat, index: map<string, nat>, todo: set<string>)
    requires c.name in index
  {
    if index[c.name] != i || c.name in todo then Empty(c)
    else LinksOk(props, index.Keys, c.name) && LinksAre(props, c.name, c.links) && FlagsAre(props, c.name, c.isolated, c.visible)
  }

  lemma LinkedStep(props: Properties, configs: seq<NamespaceConfig>, index: map<string, nat>, todo: set<string>, c: NamespaceConfig)
    requires Indexed(configs, index) && LinkedBut(props, configs, index, todo) && c.name in todo && c.name in index
    requires LinksOk(props, index.Keys, c.name) && LinksAre(props, c.name, c.links) && FlagsAre(props, c.name, c.isolated, c.visible)
    ensures var after := configs[index[c.name] := c]; Indexed(after, index) && LinkedBut(props, after, index, todo - {c.name})
  {
    var after := configs[index[c.name] := c];
    forall i | 0 <= i < |after| ensures LinkedAt(props, after[i], i, index, todo - {c.name}) {
      if i != index[c.name] {
        assert LinkedAt(props, configs[i], i, index, todo);
      }
    }
  }

  lemma LinkedLinkable(props: Properties, configs: seq<NamespaceConfig>, index: map<string, nat>)
    requires Indexed(configs, index) && LinkedBut(props, configs, index, {})
    ensures Linkable(configs, index)
  {
    forall i, k | 0 <= i < |configs| && 0 <= k < |configs[i].links|
      ensures configs[i].links[k].to in index && Complete(configs[i].links[k])
    {
      assert LinkedAt(props, configs[i], i, index, {});
      LinksComplete(props, index.Keys, configs[i].name, configs[i].links);
    }
  }

  lemma LinksComplete(props: Properties, names: set<string>, name: string, links: seq<Link>)
    requires LinksOk(props, names, name) && LinksAre(props, name, links)
    ensures forall k :: 0 <= k < |links| ==> links[k].to in names && Complete(links[k])
  {
    forall k | 0 <= k < |links| ensures links[k].to in names && Complete(links[k]) {
      assert LinkNames(props, name)[k] in LinkNames(props, name);
    }
  }

  // ---------------------------------------------------------------------------------
  // The namespaces
  // ---------------------------------------------------------------------------------

  const NUL := '\0'

  /** `r` is what is left of a string that ends at its first NUL. */
  ghost predicate UpToNul(s: string, r: string)
  {
    r <= s && '\0' !in r && (|r| < |s| ==> s[|r|] == '\0')
  }

  /** What is left of a string when it is passed as a pointer to characters. */
  function CStr(s: string): (r: string)
    ensures NUL !in r && (NUL !in s ==> r == s)
  {
    s[..Find(s, NUL, 0)]
  }

  lemma CStrIs(s: string, r: string)
    ensures UpToNul(s, r) <==> r == CStr(s)
  {
    if UpToNul(s, r) {
      FindOnly(s, NUL, 0, |r|);
    }
  }

  /** A link between two namespaces that has been made. */
  datatype Made = Made(from: string, to: string, all: bool, sonames: seq<string>)

  /** A link as it is meant. */
  function Meant(from: string, l: Link): Made {
    Made(CStr(from), l.to, l.all, if l.all then [] else Split(CStr(l.libs), ':', 0))
  }

  /** `link_namespaces` and `link_namespaces_all_libs` for namespaces that exist. */
  method LinkNamespaces(from: string, l: Link) returns (made: Option<Made>)
    ensures made == if !l.all && CStr(l.libs) == "" then None else Some(Meant(from, l))
  {
    if l.all {
      return Some(Made(CStr(from), l.to, true, []));
    }
    if CStr(l.libs) == "" {
      return None;
    }
    made := Some(Made(CStr(from), l.to, false, Split(CStr(l.libs), ':', 0)));
  }

  datatype Flags = Flags(isolated: bool, visible: bool)

  /** The names under which namespaces are found. */
  ghost function Found(configs: seq<NamespaceConfig>, n: nat): set<string>
    requires n <= |configs|
  {
    set i | 0 <= i < n :: CStr(configs[i].name)
  }

  /** A link to a name with a NUL is never found. */
  ghost predicate Unfindable(c: NamespaceConfig)
  {
    exists k :: 0 <= k < |c.links| && NUL in c.links[k].to
  }

  /** A link is refused for a list of libraries that starts with a NUL. */
  ghost predicate Refused(c: NamespaceConfig)
  {
    exists k :: 0 <= k < |c.links| && StartsWithNul(c.links[k])
  }

  predicate StartsWithNul(l: Link) {
    !l.all && l.libs != "" && l.libs[0] == NUL
  }

  lemma RefusedExactly(l: Link)
    requires Complete(l)
    ensures !l.all && CStr(l.libs) == "" <==> StartsWithNul(l)
  {
  }

  function MeantAll(c: NamespaceConfig): seq<Made> {
    seq(|c.links|, k requires 0 <= k < |c.links| => Meant(c.name, c.links[k]))
  }

  function Flat(configs: seq<NamespaceConfig>, n: nat): seq<Made>
    requires n <= |configs|
  {
    if n == 0 then [] else Flat(configs, n - 1) + MeantAll(configs[n - 1])
  }

  /** The configuration with its first `k` links. */
  function UpTo(c: NamespaceConfig, k: nat): NamespaceConfig
    requires k <= |c.links|
  {
    c.(links := c.links[..k])
  }

  lemma OneMore(c: NamespaceConfig, k: nat)
    requires k < |c.links|
    ensures Unfindable(UpTo(c, k + 1)) <==> Unfindable(UpTo(c, k)) || NUL in c.links[k].to
    ensures Refused(UpTo(c, k + 1)) <==> Refused(UpTo(c, k)) || StartsWithNul(c.links[k])
    ensures MeantAll(UpTo(c, k + 1)) == MeantAll(UpTo(c, k)) + [Meant(c.name, c.links[k])]
    ensures NUL in c.links[k].to ==> Unfindable(c)
  {
    var links := c.links[..k + 1];
    assert links[k] == c.links[k] && links[..k] == c.links[..k];
    if Unfindable(UpTo(c, k)) {
      var j :| 0 <= j < k && NUL in c.links[..k][j].to;
      assert NUL in links[j].to;
    }
    if Refused(UpTo(c, k)) {
      var j :| 0 <= j < k && StartsWithNul(c.links[..k][j]);
      assert StartsWithNul(links[j]);
    }
  }

  /** The links of one namespace. */
  method LinkFrom(c: NamespaceConfig, namespaces: set<string>) returns (aborted: bool, refused: bool, made: seq<Made>)
    requires forall k :: 0 <= k < |c.links| ==> Complete(c.links[k]) && (c.links[k].to in namespaces <==> NUL !in c.links[k].to)
    ensures aborted <==> Unfindable(c)
    ensures !aborted ==> (refused <==> Refused(c))
    ensures !aborted && !refused ==> made == MeantAll(c)
  {
    aborted, refused, made := false, false, [];
    for k := 0 to |c.links|
      invariant !Unfindable(UpTo(c, k)) && (refused <==> Refused(UpTo(c, k)))
      invariant !refused ==> made == MeantAll(UpTo(c, k))
    {
      OneMore(c, k);
      var l := c.links[k];
      if l.to !in namespaces {
        return true, refused, made;
      }
      RefusedExactly(l);
      var m := LinkNamespaces(c.name, l);
      if m.None? {
        refused := true;
      } else {
        made := made + [m.value];
      }
    }
    assert c.links[..|c.links|] == c.links;
  }

  /** One of the first `n` namespaces has a link that is never found. */
  ghost predicate AnyUnfindable(configs: seq<NamespaceConfig>, n: nat)
  {
    exists i :: 0 <= i < n && i < |configs| && Unfindable(configs[i])
  }

  /** One of the first `n` namespaces has a link that is refused. */
  ghost predicate AnyRefused(configs: seq<NamespaceConfig>, n: nat)
  {
    exists i :: 0 <= i < n && i < |configs| && Refused(configs[i])
  }

  lemma AnyMore(configs: seq<NamespaceConfig>, i: nat)
    requires i < |configs|
    ensures AnyUnfindable(configs, i + 1) <==> AnyUnfindable(configs, i) || Unfindable(configs[i])
    ensures AnyRefused(configs, i + 1) <==> AnyRefused(configs, i) || Refused(configs[i])
    ensures Unfindable(configs[i]) ==> AnyUnfindable(configs, |configs|)
  {
  }

  /** The links of all namespaces. */
  method LinkEach(configs: seq<NamespaceConfig>, ghost index: map<string, nat>, names: set<string>)
    returns (aborted: bool, refused: bool, links: seq<Made>)
    requires Indexed(configs, index) && Linkable(configs, index) && names == Found(configs, |configs|)
    ensures aborted <==> AnyUnfindable(configs, |configs|)
    ensures !aborted ==> (refused <==> AnyRefused(configs, |configs|))
    ensures !aborted && !refused ==> links == Flat(configs, |configs|)
  {
    links, refused, aborted := [], false, false;
    for i := 0 to |configs|
      invariant !AnyUnfindable(configs, i) && (refused <==> AnyRefused(configs, i))
      invariant !refused ==> links == Flat(configs, i)
    {
      if CStr(configs[i].name) !in names {
        return true, refused, links;
      }
      LookedUp(configs, index, configs[i], i);
      AnyMore(configs, i);
      var a, r, made := LinkFrom(configs[i], names);
      if a {
        return true, refused, links;
      }
      refused, links := refused || r, links + made;
    }
  }

  /** `init_default_namespaces`: a lookup fails exactly for a name with a NUL, and a link is refused exactly for a list
      that starts with one. Otherwise every link is made, as it is in the configuration. */
  method InitDefaultNamespaces(configs: seq<NamespaceConfig>, index: map<string, nat>)
    returns (aborted: bool, refused: bool, namespaces: map<string, Flags>, links: seq<Made>)
    requires Indexed(configs, index) && Linkable(configs, index) && "default" in index
    ensures aborted <==> AnyUnfindable(configs, |configs|)
    ensures namespaces.Keys == Found(configs, |configs|) && CreatedAs(configs, index["default"], namespaces)
    ensures !aborted ==> (refused <==> AnyRefused(configs, |configs|))
    ensures !aborted && !refused ==> links == Flat(configs, |configs|)
  {
    namespaces := CreateNamespaces(configs, index["default"]);
    aborted, refused, links := LinkEach(configs, index, namespaces.Keys);
  }

  /** Configuration `i` is the first one of its name. */
  ghost predicate FirstOfName(configs: seq<NamespaceConfig>, i: nat)
  {
    i < |configs| && forall j :: 0 <= j < i ==> CStr(configs[j].name) != CStr(configs[i].name)
  }

  function FlagsOf(c: NamespaceConfig): Flags {
    Flags(c.isolated, c.visible)
  }

  /** The default namespace is like its configuration, and any other is like the first one of its name. */
  ghost predicate CreatedAs(configs: seq<NamespaceConfig>, d: nat, namespaces: map<string, Flags>)
  {
    && d < |configs| && "default" in namespaces && namespaces["default"] == FlagsOf(configs[d])
    && forall i :: 0 <= i < |configs| ==> CreatedFrom(configs, i, namespaces)
  }

  ghost predicate CreatedFrom(configs: seq<NamespaceConfig>, i: nat, namespaces: map<string, Flags>)
    requires i < |configs|
  {
    && CStr(configs[i].name) in namespaces
    && (FirstOfName(configs, i) && CStr(configs[i].name) != "default" ==> namespaces[CStr(configs[i].name)] == FlagsOf(configs[i]))
  }

  /** The first `n` configurations have been gone through. */
  ghost predicate CreatedUpTo(configs: seq<NamespaceConfig>, n: nat, namespaces: map<string, Flags>)
    requires n <= |configs|
  {
    namespaces.Keys == Found(configs, n) + {"default"} && forall j :: 0 <= j < n ==> CreatedFrom(configs, j, namespaces)
  }

  lemma CreatedMore(configs: seq<NamespaceConfig>, i: nat, before: map<string, Flags>, after: map<string, Flags>)
    requires i < |configs| && CreatedUpTo(configs, i, before)
    requires var name := CStr(configs[i].name); after == if name in before then before else before[name := FlagsOf(configs[i])]
    ensures CreatedUpTo(configs, i + 1, after)
  {
    FoundMore(configs, i);
    forall j | 0 <= j < i + 1 ensures CreatedFrom(configs, j, after) {
      if j < i {
        assert CreatedFrom(configs, j, before);
      }
    }
  }

  method CreateNamespaces(configs: seq<NamespaceConfig>, d: nat) returns (namespaces: map<string, Flags>)
    requires d < |configs| && configs[d].name == "default"
    ensures namespaces.Keys == Found(configs, |configs|) && CreatedAs(configs, d, namespaces)
  {
    namespaces := map["default" := FlagsOf(configs[d])];
    for i := 0 to |configs|
      invariant CreatedUpTo(configs, i, namespaces)
      invariant "default" in namespaces && namespaces["default"] == FlagsOf(configs[d])
    {
      ghost var before := namespaces;
      var name := CStr(configs[i].name);
      if name !in namespaces {
        namespaces := namespaces[name := FlagsOf(configs[i])];
      }
      CreatedMore(configs, i, before, namespaces);
    }
    FoundHas(configs, d);
  }

  lemma FoundHas(configs: seq<NamespaceConfig>, d: nat)
    requires d < |configs| && configs[d].name == "default"
    ensures Found(configs, |configs|) + {"default"} == Found(configs, |configs|)
  {
    assert CStr(configs[d].name) == "default";
  }

  lemma FoundMore(configs: seq<NamespaceConfig>, i: nat)
    requires i < |configs|
    ensures Found(configs, i + 1) == Found(configs, i) + {CStr(configs[i].name)}
  {
  }

  /** A linked name is found exactly if it has no NUL. */
  lemma LookedUp(configs: seq<NamespaceConfig>, index: map<string, nat>, c: NamespaceConfig, i: nat)
    requires Indexed(configs, index) && Linkable(configs, index) && i < |configs| && c == configs[i]
    ensures CStr(c.name) in Found(configs, |configs|)
    ensures forall k :: 0 <= k < |c.links| ==>
              Complete(c.links[k]) && (c.links[k].to in Found(configs, |configs|) <==> NUL !in c.links[k].to)
  {
    forall k | 0 <= k < |c.links| ensures c.links[k].to in Found(configs, |configs|) <==> NUL !in c.links[k].to {
      var to := c.links[k].to;
      assert configs[i].links[k].to in index;
      if NUL !in to {
        assert CStr(configs[index[to]].name) == to;
      }
    }
  }

  // ---------------------------------------------------------------------------------
  // Text without NUL
  // ---------------------------------------------------------------------------------

  lemma {:induction false} TrimFree(s: string)
    requires NUL !in s
    ensures NUL !in TrimLeft(s) && NUL !in TrimRight(s)
    decreases |s|
  {
    if s != [] {
      TrimFree(s[1..]);
      TrimFree(s[..|s| - 1]);
    }
  }

  lemma TrimmedFree(s: string)
    requires NUL !in s
    ensures NUL !in Trim(s)
  {
    TrimFree(s);
    TrimFree(TrimLeft(s));
  }

  lemma {:induction false} SplitFree(s: string, c: char, p: nat)
    requires NUL !in s && p <= |s|
    ensures forall part :: part in Split(s, c, p) ==> NUL !in part
    decreases |s| - p
  {
    var found := Find(s, c, p);
    if found < |s| {
      SplitFree(s, c, found + 1);
    }
  }

  predicate TokenFree(t: Token) {
    t.Assign? || t.Append? ==> NUL !in t.value
  }

  lemma ClassifyFree(raw: string)
    requires NUL !in raw
    ensures TokenFree(Classify(raw))
  {
    var line := Trim(raw[..Find(raw, '#', 0)]);
    TrimmedFree(raw[..Find(raw, '#', 0)]);
    var assign, append := Find(line, '=', 0), FindAppend(line, 0);
    if assign < |line| {
      TrimmedFree(line[assign + 1..]);
    }
    if append < |line| {
      TrimmedFree(line[append + 2..]);
    }
  }

  ghost predicate AllFree(tokens: seq<Located>)
  {
    forall i :: 0 <= i < |tokens| ==> TokenFree(tokens[i].token)
  }

  lemma {:induction false} TokensFree(lines: seq<string>, number: nat)
    requires forall line :: line in lines ==> NUL !in line
    ensures AllFree(Tokens(lines, number))
    decreases |lines|
  {
    if lines != [] {
      ClassifyFree(lines[0]);
      TokensFree(lines[1..], number + 1);
    }
  }

  lemma {:induction false} ChooseFree(tokens: seq<Located>, contains: string -> bool)
    requires AllFree(tokens)
    ensures Choose(tokens, contains).Chosen? ==> AllFree(Choose(tokens, contains).rest)
  {
    if tokens != [] {
      ChooseFree(tokens[1..], contains);
    }
  }

  lemma {:induction false} SeekFree(tokens: seq<Located>, name: string)
    requires AllFree(tokens)
    ensures Seek(tokens, name).Some? ==> AllFree(Seek(tokens, name).value)
  {
    if tokens != [] {
      SeekFree(tokens[1..], name);
    }
  }

  lemma {:induction false} BodyFree(tokens: seq<Located>)
    requires AllFree(tokens)
    ensures AllFree(Body(tokens))
  {
    if tokens != [] {
      BodyFree(tokens[1..]);
    }
  }

  ghost predicate PropertiesFree(props: Properties)
  {
    forall name :: name in props ==> NUL !in props[name].value
  }

  lemma AppliedFree(props: Properties, l: Located)
    requires PropertiesFree(props) && TokenFree(l.token)
    ensures PropertiesFree(Applied(props, l))
  {
  }

  lemma {:induction false} FoldedFree(props: Properties, lines: seq<Located>)
    requires PropertiesFree(props) && AllFree(lines)
    ensures PropertiesFree(Folded(props, lines))
    decreases |lines|
  {
    if lines != [] {
      AppliedFree(props, lines[0]);
      FoldedFree(Applied(props, lines[0]), lines[1..]);
    }
  }

  lemma MeaningFree(content: string, contains: string -> bool)
    requires NUL !in content
    ensures Meaning(content, contains).Some? ==> PropertiesFree(Meaning(content, contains).value)
  {
    var tokens := Tokens(Split(content, '\n', 0), 1);
    SplitFree(content, '\n', 0);
    TokensFree(Split(content, '\n', 0), 1);
    ChooseFree(tokens, contains);
    var choice := Choose(tokens, contains);
    if choice.Chosen? {
      SeekFree(choice.rest, choice.name);
      var section := Seek(choice.rest, choice.name);
      if section.Some? {
        BodyFree(section.value);
        FoldedFree(map[], Body(section.value));
      }
    }
  }

  lemma LinkNamesFree(props: Properties, name: string, k: nat)
    requires PropertiesFree(props) && k < |LinkNames(props, name)|
    ensures NUL !in LinkNames(props, name)[k]
  {
    var value := props[Prefix(name) + ".links"].value;
    SplitFree(value, ',', 0);
    TrimmedFree(Split(value, ',', 0)[k]);
  }

  // ---------------------------------------------------------------------------------
  // From the properties on
  // ---------------------------------------------------------------------------------

  /** The configuration can be read. */
  ghost predicate Readable(props: Properties, versionOk: bool)
  {
    && (GetBool(props, "enable.target.sdk.version") ==> versionOk)
    && AllLinksOk(props, Names(props))
  }

  /** What it is read as. */
  ghost predicate ReadAs(props: Properties, configs: seq<NamespaceConfig>, index: map<string, nat>)
  {
    && index.Keys == Names(props) && Indexed(configs, index) && Named(AllNames(props), configs, index)
    && LinkedBut(props, configs, index, {})
  }

  /** The `k`th link of a namespace. */
  ghost predicate HasLink(props: Properties, name: string, k: int)
  {
    name in Names(props) && 0 <= k < |LinkNames(props, name)|
  }

  function LinkAt(props: Properties, name: string, k: int): Link
    requires 0 <= k < |LinkNames(props, name)|
  {
    LinkTo(props, name, LinkNames(props, name)[k])
  }

  /** Some link is to a name with a NUL. */
  ghost predicate NulLink(props: Properties)
  {
    exists name, k :: HasLink(props, name, k) && NUL in LinkAt(props, name, k).to
  }

  /** Some link is for a list of libraries that starts with a NUL. */
  ghost predicate NulLibs(props: Properties)
  {
    exists name, k :: HasLink(props, name, k) && StartsWithNul(LinkAt(props, name, k))
  }

  /** Link `k` of namespace `name` is link `k` of its configuration. */
  lemma LinkOfConfig(props: Properties, configs: seq<NamespaceConfig>, index: map<string, nat>, name: string, k: int)
    requires ReadAs(props, configs, index) && HasLink(props, name, k)
    ensures name in index && index[name] < |configs| && configs[index[name]].name == name
    ensures k < |configs[index[name]].links| && configs[index[name]].links[k] == LinkAt(props, name, k)
  {
    assert LinkedAt(props, configs[index[name]], index[name], index, {});
  }

  /** Every link of a configuration is one of the properties. */
  lemma ConfigOfLink(props: Properties, configs: seq<NamespaceConfig>, index: map<string, nat>, i: nat, k: nat)
    requires ReadAs(props, configs, index) && i < |configs| && k < |configs[i].links|
    ensures HasLink(props, configs[i].name, k) && configs[i].links[k] == LinkAt(props, configs[i].name, k)
  {
    assert LinkedAt(props, configs[i], i, index, {});
  }

  /** A lookup fails exactly if a link of the properties is to a name with a NUL. */
  lemma AbortsExactly(props: Properties, configs: seq<NamespaceConfig>, index: map<string, nat>)
    requires ReadAs(props, configs, index)
    ensures AnyUnfindable(configs, |configs|) <==> NulLink(props)
  {
    if AnyUnfindable(configs, |configs|) {
      var i :| 0 <= i < |configs| && Unfindable(configs[i]);
      var k :| 0 <= k < |configs[i].links| && NUL in configs[i].links[k].to;
      ConfigOfLink(props, configs, index, i, k);
    }
    if name, k :| HasLink(props, name, k) && NUL in LinkAt(props, name, k).to {
      LinkOfConfig(props, configs, index, name, k);
      assert Unfindable(configs[index[name]]);
    }
  }

  /** A link is refused exactly if one of the properties is for a list that starts with a NUL. */
  lemma RefusesExactly(props: Properties, configs: seq<NamespaceConfig>, index: map<string, nat>)
    requires ReadAs(props, configs, index)
    ensures AnyRefused(configs, |configs|) <==> NulLibs(props)
  {
    if AnyRefused(configs, |configs|) {
      var i :| 0 <= i < |configs| && Refused(configs[i]);
      var k :| 0 <= k < |configs[i].links| && StartsWithNul(configs[i].links[k]);
      ConfigOfLink(props, configs, index, i, k);
    }
    if name, k :| HasLink(props, name, k) && StartsWithNul(LinkAt(props, name, k)) {
      LinkOfConfig(props, configs, index, name, k);
      assert Refused(configs[index[name]]);
    }
  }

  ghost predicate Configured(props: Properties, name: string)
  {
    name == "default" || name in GetStrings(props, "additional.namespaces")
  }

  /** A list of libraries, which is cut off at a NUL. */
  ghost predicate ListsLibraries(value: string, sonames: seq<string>)
  {
    sonames != [] && UpToNul(value, Joined(sonames, ':')) && forall soname :: soname in sonames ==> ':' !in soname
  }

  /** The properties ask for the link `m` from namespace `name` to namespace `to`. */
  ghost predicate AskedFor(props: Properties, name: string, to: string, m: Made)
  {
    && Configured(props, name) && to in GetStrings(props, "namespace." + name + ".links")
    && UpToNul(name, m.from) && m.to == to
    && (m.all <==> HasText(props, "namespace." + name + ".link." + to + ".allow_all_shared_libs", "true"))
    && (m.all ==> m.sonames == [])
    && (!m.all ==> var key := "namespace." + name + ".link." + to + ".shared_libs";
                   key in props && ListsLibraries(props[key].value, m.sonames))
  }

  /** Exactly the links that the properties ask for have been made. */
  ghost predicate AllMade(props: Properties, links: seq<Made>)
  {
    forall m :: m in links <==> exists name, to :: AskedFor(props, name, to, m)
  }

  lemma {:induction false} FlatHas(configs: seq<NamespaceConfig>, n: nat, m: Made)
    requires n <= |configs|
    ensures m in Flat(configs, n) <==> exists i :: 0 <= i < n && m in MeantAll(configs[i])
  {
    if n > 0 {
      FlatHas(configs, n - 1, m);
    }
  }

  lemma ListsExactly(value: string, sonames: seq<string>)
    ensures ListsLibraries(value, sonames) <==> sonames == Split(CStr(value), ':', 0)
  {
    var libs := CStr(value);
    CStrIs(value, Joined(sonames, ':'));
    assert libs[0..] == libs;
    if sonames == Split(libs, ':', 0) {
      SplitJoined(libs, ':', 0);
      SplitUnbroken(libs, ':', 0);
    }
    if ListsLibraries(value, sonames) {
      SplitOnly(libs, ':', 0, sonames);
    }
  }

  /** A link that is in order is asked for if it is meant, and the other way round. */
  lemma AskedExactly(props: Properties, name: string, to: string, m: Made)
    requires Configured(props, name) && to in GetStrings(props, "namespace." + name + ".links") && Complete(LinkTo(props, name, to))
    ensures AskedFor(props, name, to, m) <==> m == Meant(name, LinkTo(props, name, to))
  {
    var l := LinkTo(props, name, to);
    ListsExactly(l.libs, m.sonames);
    CStrIs(name, m.from);
  }

  lemma ConfigAsks(props: Properties, configs: seq<NamespaceConfig>, index: map<string, nat>, i: nat, m: Made)
    requires ReadAs(props, configs, index) && i < |configs| && m in MeantAll(configs[i])
    ensures exists to :: AskedFor(props, configs[i].name, to, m)
  {
    var k :| 0 <= k < |MeantAll(configs[i])| && MeantAll(configs[i])[k] == m;
    ConfigOfLink(props, configs, index, i, k);
    assert LinkedAt(props, configs[i], i, index, {});
    var to := LinkNames(props, configs[i].name)[k];
    assert to in LinkNames(props, configs[i].name);
    AskedExactly(props, configs[i].name, to, m);
  }

  lemma ConfigMakes(props: Properties, configs: seq<NamespaceConfig>, index: map<string, nat>, name: string, to: string, m: Made)
    requires ReadAs(props, configs, index) && AskedFor(props, name, to, m)
    ensures name in index && index[name] < |configs| && m in MeantAll(configs[index[name]])
  {
    var k :| 0 <= k < |LinkNames(props, name)| && LinkNames(props, name)[k] == to;
    assert HasLink(props, name, k);
    LinkOfConfig(props, configs, index, name, k);
    assert LinkedAt(props, configs[index[name]], index[name], index, {});
    AskedExactly(props, name, to, m);
    assert MeantAll(configs[index[name]])[k] == m;
  }

  lemma MadeExactly(props: Properties, configs: seq<NamespaceConfig>, index: map<string, nat>)
    requires ReadAs(props, configs, index)
    ensures AllMade(props, Flat(configs, |configs|))
  {
    forall m ensures m in Flat(configs, |configs|) <==> exists name, to :: AskedFor(props, name, to, m) {
      FlatHas(configs, |configs|, m);
      if i :| 0 <= i < |configs| && m in MeantAll(configs[i]) {
        ConfigAsks(props, configs, index, i, m);
      }
      if name, to :| AskedFor(props, name, to, m) {
        ConfigMakes(props, configs, index, name, to, m);
      }
    }
  }

  /** Namespace `k` is the first one of its name in the configuration. */
  ghost predicate FirstListed(names: seq<string>, k: nat)
  {
    k < |names| && forall j :: 0 <= j < k ==> CStr(names[j]) != CStr(names[k])
  }

  /** A namespace is isolated or visible if its properties say so, but not if its name is listed again: what is created
      first is then empty, and it is what the namespace is created from. */
  ghost predicate AllFlagged(props: Properties, namespaces: map<string, Flags>)
  {
    && "default" in namespaces && FlagsAre(props, "default", namespaces["default"].isolated, namespaces["default"].visible)
    && forall k :: 0 <= k < |AllNames(props)| ==> FlaggedAs(props, AllNames(props), k, namespaces)
  }

  ghost predicate FlaggedAs(props: Properties, names: seq<string>, k: nat, namespaces: map<string, Flags>)
    requires k < |names|
  {
    && CStr(names[k]) in namespaces
    && (FirstListed(names, k) && CStr(names[k]) != "default" ==>
          var f := namespaces[CStr(names[k])];
          if names[k] in names[k + 1..] then !f.isolated && !f.visible else FlagsAre(props, names[k], f.isolated, f.visible))
  }

  /** The flags are those of the properties exactly if the name is not listed again, or the properties set none. */
  lemma FlagsHold(props: Properties, k: nat, namespaces: map<string, Flags>)
    requires AllFlagged(props, namespaces) && FirstListed(AllNames(props), k) && CStr(AllNames(props)[k]) != "default"
    ensures var name := AllNames(props)[k];
            && CStr(name) in namespaces
            && var f := namespaces[CStr(name)];
               FlagsAre(props, name, f.isolated, f.visible) <==> name !in AllNames(props)[k + 1..] || FlagsAre(props, name, false, false)
  {
    assert FlaggedAs(props, AllNames(props), k, namespaces);
  }

  lemma IndexLast(names: seq<string>, configs: seq<NamespaceConfig>, index: map<string, nat>, k: nat)
    requires Indexed(configs, index) && Named(names, configs, index) && k < |names|
    ensures index[names[k]] != k <==> names[k] in names[k + 1..]
  {
    if index[names[k]] != k {
      assert names[k + 1..][index[names[k]] - k - 1] == names[k];
    }
    var later := names[k + 1..];
    if j :| 0 <= j < |later| && later[j] == names[k] {
      assert names[k + 1 + j] == names[k];
    }
  }

  lemma FlaggedExactly(props: Properties, configs: seq<NamespaceConfig>, index: map<string, nat>, namespaces: map<string, Flags>)
    requires ReadAs(props, configs, index) && "default" in index && CreatedAs(configs, index["default"], namespaces)
    ensures AllFlagged(props, namespaces)
  {
    var names := AllNames(props);
    assert LinkedAt(props, configs[index["default"]], index["default"], index, {});
    forall k | 0 <= k < |names| ensures FlaggedAs(props, names, k, namespaces) {
      FlaggedOne(props, names, configs, index, namespaces, k);
    }
  }

  lemma FlaggedOne(props: Properties, names: seq<string>, configs: seq<NamespaceConfig>, index: map<string, nat>,
                   namespaces: map<string, Flags>, k: nat)
    requires Indexed(configs, index) && Named(names, configs, index) && LinkedBut(props, configs, index, {})
    requires k < |names| && CreatedFrom(configs, k, namespaces)
    ensures FlaggedAs(props, names, k, namespaces)
  {
    IndexLast(names, configs, index, k);
    assert LinkedAt(props, configs[k], k, index, {});
    if FirstListed(names, k) {
      assert FirstOfName(configs, k);
    }
  }

  /** Without a NUL nothing of this happens. */
  lemma FreeOfNul(props: Properties)
    requires PropertiesFree(props)
    ensures !NulLink(props) && !NulLibs(props)
  {
    forall name, k | HasLink(props, name, k) ensures NUL !in LinkAt(props, name, k).to && !StartsWithNul(LinkAt(props, name, k)) {
      LinkNamesFree(props, name, k);
    }
  }

  /** What became of a configuration file: there is none for the binary or it cannot be read, a check failed, a link was
      refused, or all links were made. */
  datatype Start = Unconfigured | CheckFailed | LinkRefused | Ready(links: seq<Made>, namespaces: map<string, Flags>)

  /** What the properties lead to. */
  ghost predicate StartOf(props: Properties, versionOk: bool, start: Start)
  {
    match start
    case Unconfigured => !Readable(props, versionOk)
    case CheckFailed => Readable(props, versionOk) && NulLink(props)
    case LinkRefused => Readable(props, versionOk) && !NulLink(props) && NulLibs(props)
    case Ready(links, namespaces) =>
      && Readable(props, versionOk) && !NulLink(props) && !NulLibs(props)
      && AllMade(props, links) && AllFlagged(props, namespaces)
  }

  lemma DefaultNamed(props: Properties, configs: seq<NamespaceConfig>, index: map<string, nat>)
    requires ReadAs(props, configs, index)
    ensures "default" in index
  {
    assert AllNames(props)[0] == "default";
  }

  method Initialize(ghost props: Properties, ghost versionOk: bool, configs: seq<NamespaceConfig>, index: map<string, nat>)
    returns (start: Start)
    requires Readable(props, versionOk) && ReadAs(props, configs, index) && Linkable(configs, index)
    ensures StartOf(props, versionOk, start)
  {
    DefaultNamed(props, configs, index);
    var failed, refused, namespaces, links := InitDefaultNamespaces(configs, index);
    AbortsExactly(props, configs, index);
    if failed {
      return CheckFailed;
    }
    RefusesExactly(props, configs, index);
    if refused {
      return LinkRefused;
    }
    MadeExactly(props, configs, index);
    FlaggedExactly(props, configs, index, namespaces);
    start := Ready(links, namespaces);
  }

  method Configure(props: Properties, versionOk: bool) returns (start: Start)
    ensures StartOf(props, versionOk, start)
  {
    var config := new Config();
    var configured := config.Read(props, versionOk);
    if !configured {
      return Unconfigured;
    }
    start := Initialize(props, versionOk, config.configs, config.index);
  }

  /** From the text of the file to the namespaces. The parser never reads past the end. */
  method StartUp(content: string, contains: string -> bool, versionOk: bool) returns (start: Start)
    ensures Means(content, contains, Meaning(content, contains))
    ensures match Meaning(content, contains) case None => start.Unconfigured? case Some(props) => StartOf(props, versionOk, start)
    ensures '\0' !in content ==> !start.CheckFailed? && !start.LinkRefused?
  {
    var props, pastEnd := ParseConfigFile(content, contains);
    if props.None? {
      return Unconfigured;
    }
    start := Configure(props.value, versionOk);
    if NUL !in content {
      MeaningFree(content, contains);
      FreeOfNul(props.value);
    }
  }

  /** A link that is made is for the libraries of its list, which is cut off at a NUL. */
  lemma MeantFor(from: string, l: Link)
    requires !l.all
    ensures Joined(Meant(from, l).sonames, ':') == CStr(l.libs) && forall part :: part in Meant(from, l).sonames ==> ':' !in part
  {
    SplitJoined(CStr(l.libs), ':', 0);
    SplitUnbroken(CStr(l.libs), ':', 0);
  }

  // ---------------------------------------------------------------------------------
  // Configurations with a NUL
  // ---------------------------------------------------------------------------------

  /** A name with a NUL, and a list that starts with one. */
  const BAD_NAME: string := ['a', NUL]
  const BAD_LIBS: string := [NUL]

  function Text(value: string): Property {
    Property(value, 1)
  }

  /** The default namespace is linked to one whose name contains a NUL. */
  function NulNameProperties(): Properties {
    map["additional.namespaces" := Text(BAD_NAME),
        Prefix("default") + ".links" := Text(BAD_NAME),
        Prefix("default") + ".link." + BAD_NAME + ".allow_all_shared_libs" := Text("true")]
  }

  /** The default namespace is linked to itself, for a list of libraries that starts with a NUL. */
  function NulLibsProperties(): Properties {
    map[Prefix("default") + ".links" := Text("default"),
        Prefix("default") + ".link." + "default" + ".shared_libs" := Text(BAD_LIBS)]
  }

  /** A namespace is listed twice, and is meant to be isolated. */
  function TwiceProperties(): Properties {
    map["additional.namespaces" := Text("a,a"), "namespace.a.isolated" := Text("true")]
  }

  /** It is not. */
  lemma ListedTwice(namespaces: map<string, Flags>)
    requires AllFlagged(TwiceProperties(), namespaces)
    ensures HasText(TwiceProperties(), "namespace.a.isolated", "true") && "a" in namespaces && !namespaces["a"].isolated
  {
    var props := TwiceProperties();
    SplitOnly("a,a", ',', 0, ["a", "a"]);
    assert GetStrings(props, "additional.namespaces") == ["a", "a"];
    var names := AllNames(props);
    assert names == ["default", "a", "a"] && names[2..] == ["a"];
    assert FlaggedAs(props, names, 1, namespaces);
    assert FirstListed(names, 1);
  }

  /** A value without blanks and commas is a list of one. */
  lemma OneString(props: Properties, key: string, value: string)
    requires key in props && props[key].value == value
    requires value != [] && ',' !in value && !IsSpace(value[0]) && !IsSpace(value[|value| - 1])
    ensures GetStrings(props, key) == [value]
  {
    assert Find(value, ',', 0) == |value|;
    assert Split(value, ',', 0) == [value];
  }

  /** With a NUL in a name a configuration that can be read makes the lookup fail: the name of a namespace is cut off where
      the namespace is entered, but not where a link to it is looked up. */
  lemma NulAborts()
    ensures Readable(NulNameProperties(), true) && NulLink(NulNameProperties())
  {
    var props := NulNameProperties();
    OneString(props, "additional.namespaces", BAD_NAME);
    OneString(props, Prefix("default") + ".links", BAD_NAME);
    assert Prefix(BAD_NAME) + ".links" !in props;
    assert LinkNames(props, BAD_NAME) == [];
    assert "enable.target.sdk.version" !in props;
    assert LinkTo(props, "default", BAD_NAME) == Link(BAD_NAME, "", true);
    assert HasLink(props, "default", 0);
  }

  /** With a NUL at the start of a list a configuration that can be read makes a link be refused. */
  lemma NulRefused()
    ensures Readable(NulLibsProperties(), true) && !NulLink(NulLibsProperties()) && NulLibs(NulLibsProperties())
  {
    var props := NulLibsProperties();
    OneString(props, Prefix("default") + ".links", "default");
    assert "additional.namespaces" !in props;
    assert GetStrings(props, "additional.namespaces") == [];
    assert "enable.target.sdk.version" !in props;
    assert LinkTo(props, "default", "default") == Link("default", BAD_LIBS, false);
    assert HasLink(props, "default", 0);
  }
}
