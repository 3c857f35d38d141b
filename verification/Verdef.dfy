/** Version definitions of a library: a chain of records, which is validated once and then searched. */
module Verdef {

  const VERSYM_NOT_NEEDED := 0
  const VERSYM_GLOBAL := 1

  /** A record of the chain. `next` leads to the next one, `aux` to the name. */
  datatype Record = Record(version: nat, base: bool, index: nat, count: nat, hash: nat, aux: nat, next: nat)

  /** The section is memory, to be read at any offset. Offsets wrap around at `word`. */
  datatype Library = Library(supported: bool, present: bool, count: nat, word: nat, records: nat -> Record, names: nat -> string) {
    predicate Valid() {
      word > 0
    }

    /** Where record `i` is. */
    function Offset(i: nat): nat
      requires Valid()
    {
      if i == 0 then 0 else (Offset(i - 1) + records(Offset(i - 1)).next) % word
    }

    function At(i: nat): Record
      requires Valid()
    {
      records(Offset(i))
    }

    function Name(i: nat): string
      requires Valid()
    {
      names((Offset(i) + At(i).aux) % word)
    }

    /** How many records are looked at. */
    function Length(): nat {
      if supported && present then count else 0
    }

    /** The record does not belong into a section. */
    predicate Bad(i: nat)
      requires Valid()
    {
      At(i).version != 1 || (!At(i).base && At(i).count == 0)
    }
  }

  datatype Wanted = Wanted(hash: nat, name: string)

  /** Record `i` defines the version. The base definition stands for the file, not for a version. */
  ghost predicate Defines(si: Library, i: nat, vi: Wanted)
    requires si.Valid()
  {
    !si.At(i).base && si.At(i).hash == vi.hash && si.Name(i) == vi.name
  }

  /** What to do with a record: the two functions that are passed to `for_each_verdef`. */
  datatype Functor = Look(vi: Wanted) | Ignore {
    predicate Stops(hash: nat, name: string) {
      match this
      case Look(vi) => hash == vi.hash && name == vi.name
      case Ignore => false
    }
  }

  /** Record `i` is where the walk stops. */
  ghost predicate StopsAt(si: Library, f: Functor, i: nat)
    requires si.Valid()
  {
    !si.Bad(i) && !si.At(i).base && f.Stops(si.At(i).hash, si.Name(i))
  }

  /** `for_each_verdef`: the walk fails at the first bad record, unless it has stopped before. */
  method ForEachVerdef(si: Library, f: Functor) returns (ok: bool, at: nat)
    requires si.Valid()
    ensures at <= si.Length()
    ensures forall j :: 0 <= j < at ==> !si.Bad(j) && !StopsAt(si, f, j)
    ensures if !ok then at < si.Length() && si.Bad(at) else at < si.Length() ==> StopsAt(si, f, at)
  {
    if !si.supported {
      return true, 0;
    }
    if !si.present {
      return true, 0;
    }
    var offset := 0;
    for i := 0 to si.count
      invariant offset == si.Offset(i)
      invariant forall j :: 0 <= j < i ==> !si.Bad(j) && !StopsAt(si, f, j)
    {
      var verdef, name := si.records(offset), si.names((offset + si.records(offset).aux) % si.word);
      offset := (offset + verdef.next) % si.word;
      if verdef.version != 1 {
        return false, i;
      }
      if verdef.base {
        continue;
      }
      if verdef.count == 0 {
        return false, i;
      }
      if f.Stops(verdef.hash, name) {
        return true, i;
      }
    }
    ok, at := true, si.count;
  }

  /** `validate_verdef_section`. */
  method Validate(si: Library) returns (ok: bool)
    requires si.Valid()
    ensures ok <==> forall i :: 0 <= i < si.Length() ==> !si.Bad(i)
  {
    var at;
    ok, at := ForEachVerdef(si, Ignore);
  }

  /** No record before `i` defines the version. */
  ghost predicate First(si: Library, vi: Wanted, i: nat)
    requires si.Valid()
  {
    Defines(si, i, vi) && forall j :: 0 <= j < i ==> !Defines(si, j, vi)
  }

  /** The index of a version: that of the first definition, or the global one. */
  ghost predicate IndexOf(si: Library, vi: Wanted, result: nat)
    requires si.Valid()
  {
    || (exists i :: 0 <= i < si.Length() && First(si, vi, i) && result == si.At(i).index)
    || ((forall i :: 0 <= i < si.Length() ==> !Defines(si, i, vi)) && result == VERSYM_GLOBAL)
  }

  /** The fatal branch is reached exactly if a bad record comes before any definition of the version. */
  ghost predicate Fatal(si: Library, vi: Wanted)
    requires si.Valid()
  {
    exists k :: 0 <= k < si.Length() && si.Bad(k) && forall j :: 0 <= j < k ==> !Defines(si, j, vi)
  }

  /** `find_verdef_version_index`. */
  method FindVersionIndex(si: Library, wanted: bool, vi: Wanted) returns (fatal: bool, result: nat)
    requires si.Valid()
    ensures !wanted ==> !fatal && result == VERSYM_NOT_NEEDED
    ensures wanted ==> (fatal <==> Fatal(si, vi))
    ensures wanted && !fatal ==> IndexOf(si, vi, result)
  {
    if !wanted {
      return false, VERSYM_NOT_NEEDED;
    }
    result := VERSYM_GLOBAL;
    var ok, at := ForEachVerdef(si, Look(vi));
    fatal := !ok;
    NoneBefore(si, vi, at);
    if ok && at < si.Length() {
      result := si.At(at).index;
      assert First(si, vi, at);
    }
  }

  lemma NoneBefore(si: Library, vi: Wanted, at: nat)
    requires si.Valid() && forall j :: 0 <= j < at ==> !si.Bad(j) && !StopsAt(si, Look(vi), j)
    ensures forall j :: 0 <= j < at ==> !Defines(si, j, vi)
  {
    forall j | 0 <= j < at ensures !Defines(si, j, vi) {
      assert !StopsAt(si, Look(vi), j);
    }
  }

  /** Validating once suffices: whatever version is asked for later, the search ends well and finds the first
      definition. */
  method ValidateThenFind(si: Library, requests: seq<Wanted>) returns (ok: bool, results: seq<nat>)
    requires si.Valid()
    ensures ok ==> |results| == |requests| && forall k :: 0 <= k < |requests| ==> IndexOf(si, requests[k], results[k])
    ensures !ok ==> exists i :: 0 <= i < si.Length() && si.Bad(i)
  {
    results := [];
    ok := Validate(si);
    if ok {
      for k := 0 to |requests|
        invariant |results| == k && forall j :: 0 <= j < k ==> IndexOf(si, requests[j], results[j])
      {
        var fatal, result := FindVersionIndex(si, true, requests[k]);
        assert !fatal;
        results := results + [result];
      }
    }
  }

  lemma IndexUnique(si: Library, vi: Wanted, a: nat, b: nat)
    requires si.Valid() && IndexOf(si, vi, a) && IndexOf(si, vi, b)
    ensures a == b
  {
    if i :| 0 <= i < si.Length() && First(si, vi, i) && a == si.At(i).index {
      assert Defines(si, i, vi);
      var j :| 0 <= j < si.Length() && First(si, vi, j) && b == si.At(j).index;
      assert i == j;
    }
  }
}
