/** The function registry of `AbstractFunctionModule`: signatures registered
    with their implementation factories, indexed by name, by OID and by
    schema, and the two lookups over those indexes. */
module FunctionModule {
  import opened Wrappers

  /** A function name; a `None` schema is Java's `null` schema. */
  datatype FunctionName = FunctionName(schema: Option<string>, name: string)

  /** A function signature, compared structurally. */
  datatype Signature = Signature(name: FunctionName, argumentTypes: seq<string>, returnType: string, oid: int)

  /** A signature with the factory that builds its implementation. */
  datatype FunctionProvider<F> = FunctionProvider(signature: Signature, factory: F)

  /** The exceptions the registry throws. */
  datatype Exception =
    | NullPointerException
    | ArrayIndexOutOfBoundsException(index: int)
      /** `register` of a signature already registered under its name. */
    | IllegalStateException(duplicate: Signature)

  /** The signatures of a provider list, in order. */
  function SignaturesOf<F>(ps: seq<FunctionProvider<F>>): (sigs: seq<Signature>)
    ensures |sigs| == |ps|
  {
    seq(|ps|, i requires 0 <= i < |ps| => ps[i].signature)
  }

  /** No two providers of the list have equal signatures. */
  ghost predicate NoDuplicateSignatures<F>(ps: seq<FunctionProvider<F>>)
  {
    forall i, j :: 0 <= i < j < |ps| ==> ps[i].signature != ps[j].signature
  }

  // ---------------------------------------------------------------------
  // String.indexOf and String.split("\\.")

  /** `s.indexOf(c)`: the first position of `c` in `s`, or -1. */
  function IndexOf(s: string, c: char): (i: int)
    ensures i == -1 <==> c !in s
    ensures i != -1 ==> 0 <= i < |s| && s[i] == c && c !in s[..i]
  {
    if s == [] then -1
    else if s[0] == c then 0
    else
      var j := IndexOf(s[1..], c);
      assert s[1..][..if j == -1 then 0 else j] == s[1..1 + if j == -1 then 0 else j];
      if j == -1 then -1 else 1 + j
  }

  /** The pieces of `s` between its dots, empty pieces included. */
  function SplitOnDots(s: string): (parts: seq<string>)
    ensures |parts| > 0
    decreases |s|
  {
    var i := IndexOf(s, '.');
    if i == -1 then [s] else [s[..i]] + SplitOnDots(s[i + 1..])
  }

  /** No piece between the dots holds a dot. */
  lemma {:induction false} SplitDotFree(s: string)
    ensures forall k :: 0 <= k < |SplitOnDots(s)| ==> '.' !in SplitOnDots(s)[k]
    decreases |s|
  {
    var i := IndexOf(s, '.');
    if i != -1 {
      SplitDotFree(s[i + 1..]);
    }
  }

  /** The pieces joined by dots. */
  function JoinDots(parts: seq<string>): string
    requires |parts| > 0
  {
    if |parts| == 1 then parts[0] else parts[0] + "." + JoinDots(parts[1..])
  }

  /** Splitting on dots and joining again gives back the string. */
  lemma {:induction false} SplitJoin(s: string)
    ensures JoinDots(SplitOnDots(s)) == s
    decreases |s|
  {
    var i := IndexOf(s, '.');
    if i != -1 {
      var head, rest := s[..i], SplitOnDots(s[i + 1..]);
      assert SplitOnDots(s) == [head] + rest;
      assert ([head] + rest)[1..] == rest;
      assert JoinDots([head] + rest) == head + "." + JoinDots(rest);
      SplitJoin(s[i + 1..]);
      assert s == head + "." + s[i + 1..];
    } else {
      assert SplitOnDots(s) == [s];
    }
  }

  /** Joining dot-free pieces and splitting again gives back the pieces. */
  lemma {:induction false} JoinSplit(parts: seq<string>)
    requires |parts| > 0 && forall k :: 0 <= k < |parts| ==> '.' !in parts[k]
    ensures SplitOnDots(JoinDots(parts)) == parts
  {
    if |parts| > 1 {
      var head, more := parts[0], parts[1..];
      assert '.' !in head;
      var s := JoinDots(parts);
      var tail := JoinDots(more);
      assert s == head + ("." + tail);
      assert s[..|head|] == head;
      assert s[|head|] == '.';
      assert IndexOf(s, '.') == |head|;
      assert s[|head| + 1..] == tail;
      assert SplitOnDots(s) == [head] + SplitOnDots(tail);
      forall k | 0 <= k < |more|
        ensures '.' !in more[k]
      {
        assert more[k] == parts[k + 1];
      }
      JoinSplit(more);
      assert parts == [head] + more;
    } else {
      assert IndexOf(parts[0], '.') == -1;
    }
  }

  /** `parts` without the empty strings at its end. */
  function DropTrailingEmpty(parts: seq<string>): (r: seq<string>)
    ensures r <= parts
    ensures r == [] || r[|r| - 1] != ""
    ensures forall k :: |r| <= k < |parts| ==> parts[k] == ""
  {
    if parts != [] && parts[|parts| - 1] == "" then DropTrailingEmpty(parts[..|parts| - 1]) else parts
  }

  /** `s.split("\\.")`: without a dot the whole string; otherwise the pieces
      between the dots, with trailing empty pieces removed. */
  function JavaSplit(s: string): (parts: seq<string>)
    ensures '.' !in s ==> parts == [s]
    ensures forall k :: 0 <= k < |parts| ==> '.' !in parts[k]
    ensures '.' in s ==> parts <= SplitOnDots(s) && (parts == [] || parts[|parts| - 1] != "")
    ensures '.' in s ==> forall k :: |parts| <= k < |SplitOnDots(s)| ==> SplitOnDots(s)[k] == ""
  {
    SplitDotFree(s);
    if '.' !in s then [s] else DropTrailingEmpty(SplitOnDots(s))
  }

  /** A qualified name `schema.name` splits into its two parts. */
  lemma QualifiedSplit(schema: string, name: string)
    requires '.' !in schema && '.' !in name && name != ""
    ensures JavaSplit(schema + "." + name) == [schema, name]
  {
    var s := schema + "." + name;
    assert s[|schema|] == '.';
    assert JoinDots([schema, name]) == s by {
      assert [schema, name][1..] == [name];
    }
    JoinSplit([schema, name]);
  }

  /** A name with three parts splits into three, so the lookup uses only the
      first two and ignores the third. */
  lemma ThreePartSplit()
    ensures JavaSplit("a.b.c") == ["a", "b", "c"]
  {
    assert JoinDots(["a", "b", "c"]) == "a.b.c" by {
      assert ["a", "b", "c"][1..] == ["b", "c"];
      assert ["b", "c"][1..] == ["c"];
    }
    JoinSplit(["a", "b", "c"]);
    assert "a.b.c"[1] == '.';
  }

  /** A trailing dot leaves a single part, so the lookup reads past the
      end of the parts. */
  lemma TrailingDotSplit()
    ensures JavaSplit("a.") == ["a"]
  {
    assert "a."[1] == '.';
    assert IndexOf("a.", '.') == 1;
    assert "a."[2..] == "";
    assert SplitOnDots("") == [""];
    assert "a."[..1] == "a";
    assert SplitOnDots("a.") == ["a", ""];
    assert ["a", ""][..1] == ["a"];
  }

  // ---------------------------------------------------------------------
  // The registry's indexes, as values

  /** The name-to-providers map of the registry. */
  type Implementations<F> = map<FunctionName, seq<FunctionProvider<F>>>

  /** `s` is among the providers registered under its name. */
  ghost predicate RegisteredIn<F>(fi: Implementations<F>, s: Signature)
  {
    s.name in fi && s in SignaturesOf(fi[s.name])
  }

  /** Every provider list is non-empty, free of duplicate signatures, and
      holds only signatures of its own name. */
  ghost predicate ListsWellFormed<F>(fi: Implementations<F>)
  {
    forall n | n in fi ::
      && fi[n] != []
      && NoDuplicateSignatures(fi[n])
      && (forall k | 0 <= k < |fi[n]| :: fi[n][k].signature.name == n)
  }

  /** The name index holds, for every name, the last signature registered under it. */
  ghost predicate LastWins<F>(fi: Implementations<F>, byName: map<FunctionName, Signature>)
  {
    && fi.Keys == byName.Keys
    && forall n | n in fi :: fi[n] != [] && byName[n] == fi[n][|fi[n]| - 1].signature
  }

  /** The OID index holds only registered signatures, each under its own OID. */
  ghost predicate OidsIndexed<F>(fi: Implementations<F>, byOid: map<int, Signature>)
  {
    forall o | o in byOid :: byOid[o].oid == o && RegisteredIn(fi, byOid[o])
  }

  /** The schema set is the set of schemas of the registered names. */
  ghost predicate SchemasIndexed(byName: map<FunctionName, Signature>, schemas: set<Option<string>>)
  {
    schemas == (set n | n in byName :: n.schema)
  }

  ghost predicate Indexed<F>(fi: Implementations<F>, byOid: map<int, Signature>,
                             byName: map<FunctionName, Signature>, schemas: set<Option<string>>)
  {
    ListsWellFormed(fi) && LastWins(fi, byName) && OidsIndexed(fi, byOid) && SchemasIndexed(byName, schemas)
  }

  /** The provider list registered under `n`; empty when there is none. */
  function ProvidersOf<F>(fi: Implementations<F>, n: FunctionName): seq<FunctionProvider<F>>
  {
    if n in fi then fi[n] else []
  }

  /** `fi` with `p` appended to the list of its signature's name. */
  function Appended<F>(fi: Implementations<F>, p: FunctionProvider<F>): Implementations<F>
  {
    fi[p.signature.name := ProvidersOf(fi, p.signature.name) + [p]]
  }

  lemma AppendedWellFormed<F>(fi: Implementations<F>, p: FunctionProvider<F>)
    requires ListsWellFormed(fi) && !RegisteredIn(fi, p.signature)
    ensures ListsWellFormed(Appended(fi, p))
  {
    var l0 := ProvidersOf(fi, p.signature.name);
    var l := l0 + [p];
    forall i, j | 0 <= i < j < |l|
      ensures l[i].signature != l[j].signature
    {
      if j == |l0| {
        assert l[i].signature == SignaturesOf(l0)[i];
      }
    }
  }

  lemma AppendedLastWins<F>(fi: Implementations<F>, byName: map<FunctionName, Signature>, p: FunctionProvider<F>)
    requires LastWins(fi, byName)
    ensures LastWins(Appended(fi, p), byName[p.signature.name := p.signature])
  {
  }

  /** A registered signature stays registered when another is appended. */
  lemma AppendedKeepsRegistered<F>(fi: Implementations<F>, p: FunctionProvider<F>, s: Signature)
    requires RegisteredIn(fi, s) || s == p.signature
    ensures RegisteredIn(Appended(fi, p), s)
  {
    var l := Appended(fi, p)[s.name];
    if s == p.signature {
      assert SignaturesOf(l)[|l| - 1] == s;
    } else {
      var l0 := fi[s.name];
      var i :| 0 <= i < |l0| && SignaturesOf(l0)[i] == s;
      if s.name == p.signature.name {
        assert SignaturesOf(l)[i] == s;
      }
    }
  }

  lemma AppendedOids<F>(fi: Implementations<F>, byOid: map<int, Signature>, p: FunctionProvider<F>)
    requires OidsIndexed(fi, byOid)
    ensures OidsIndexed(Appended(fi, p), byOid[p.signature.oid := p.signature])
  {
    var byOid' := byOid[p.signature.oid := p.signature];
    forall o | o in byOid'
      ensures byOid'[o].oid == o && RegisteredIn(Appended(fi, p), byOid'[o])
    {
      AppendedKeepsRegistered(fi, p, byOid'[o]);
    }
  }

  lemma AddedSchema(byName: map<FunctionName, Signature>, schemas: set<Option<string>>, s: Signature)
    requires SchemasIndexed(byName, schemas)
    ensures SchemasIndexed(byName[s.name := s], schemas + {s.name.schema})
  {
    var byName' := byName[s.name := s];
    assert s.name in byName';
    forall x | x in schemas + {s.name.schema}
      ensures exists n :: n in byName' && n.schema == x
    {
      if x != s.name.schema {
        var n :| n in byName && n.schema == x;
        assert n in byName';
      }
    }
  }

  /** `register` of a signature not yet registered keeps every index right. */
  lemma RegisterKeepsIndexed<F>(fi: Implementations<F>, byOid: map<int, Signature>,
                                byName: map<FunctionName, Signature>, schemas: set<Option<string>>,
                                p: FunctionProvider<F>)
    requires Indexed(fi, byOid, byName, schemas) && !RegisteredIn(fi, p.signature)
    ensures Indexed(Appended(fi, p), byOid[p.signature.oid := p.signature],
                    byName[p.signature.name := p.signature], schemas + {p.signature.name.schema})
  {
    AppendedWellFormed(fi, p);
    AppendedLastWins(fi, byName, p);
    AppendedOids(fi, byOid, p);
    AddedSchema(byName, schemas, p.signature);
  }

  /** What the name index holds under a name is registered under that name. */
  lemma NameIndexRegistered<F>(fi: Implementations<F>, byName: map<FunctionName, Signature>, n: FunctionName)
    ensures ListsWellFormed(fi) && LastWins(fi, byName) && n in byName ==>
              byName[n].name == n && RegisteredIn(fi, byName[n])
  {
    if ListsWellFormed(fi) && LastWins(fi, byName) && n in byName {
      assert SignaturesOf(fi[n])[|fi[n]| - 1] == byName[n];
    }
  }

  // ---------------------------------------------------------------------
  // The registry

  class AbstractFunctionModule<F> {
    /** The providers registered under each name, in registration order. */
    var functionImplementations: Implementations<F>
    var signatureByOid: map<int, Signature>
    var signatureByName: map<FunctionName, Signature>
    var schemas: set<Option<string>>

    /** `s` is among the providers registered under its name. */
    ghost predicate Registered(s: Signature)
      reads this
    {
      RegisteredIn(functionImplementations, s)
    }

    ghost predicate Valid()
      reads this
    {
      Indexed(functionImplementations, signatureByOid, signatureByName, schemas)
    }

    constructor ()
      ensures Valid()
      ensures functionImplementations == map[] && signatureByOid == map[] && signatureByName == map[] && schemas == {}
    {
      functionImplementations := map[];
      signatureByOid := map[];
      signatureByName := map[];
      schemas := {};
    }

    /** `register`: appends a provider for `signature` to the list of its
        name and indexes it by OID, by name and by schema, unless an equal
        signature is already registered under its name. */
    method Register(signature: Signature, factory: F) returns (r: Outcome<Exception>)
      requires Valid()
      modifies this
      ensures Valid()
      ensures r.Fail? <==> old(Registered(signature))
      ensures r.Fail? ==>
                && r.error == IllegalStateException(signature)
                && functionImplementations == old(functionImplementations)
                && signatureByOid == old(signatureByOid)
                && signatureByName == old(signatureByName)
                && schemas == old(schemas)
      ensures r.Pass? ==>
                && functionImplementations == Appended(old(functionImplementations), FunctionProvider(signature, factory))
                && signatureByOid == old(signatureByOid)[signature.oid := signature]
                && signatureByName == old(signatureByName)[signature.name := signature]
                && schemas == old(schemas) + {signature.name.schema}
    {
      var functions := ProvidersOf(functionImplementations, signature.name);
      if signature in SignaturesOf(functions) {
        return Fail(IllegalStateException(signature));
      }
      var provider := FunctionProvider(signature, factory);
      RegisterKeepsIndexed(functionImplementations, signatureByOid, signatureByName, schemas, provider);
      signatureByOid := signatureByOid[signature.oid := signature];
      signatureByName := signatureByName[signature.name := signature];
      schemas := schemas + {signature.name.schema};
      functionImplementations := functionImplementations[signature.name := functions + [provider]];
      return Pass;
    }

    /** `getFunctionSignatureByOid`: the signature last registered with the
        OID; `null` for an unknown OID and for a `null` OID, which does not throw. */
    function GetFunctionSignatureByOid(funcOid: Option<int>): (r: Option<Signature>)
      reads this
      ensures r.Some? <==> funcOid.Some? && funcOid.value in signatureByOid
      ensures Valid() && r.Some? ==> r.value.oid == funcOid.value && Registered(r.value)
    {
      if funcOid.Some? && funcOid.value in signatureByOid then Some(signatureByOid[funcOid.value]) else None
    }

    /** `signatureByName.get(key)`. */
    function LookupName(key: FunctionName): (r: Option<Signature>)
      reads this
      ensures r.Some? <==> key in signatureByName
      ensures Valid() && r.Some? ==> r.value.name == key && Registered(r.value)
    {
      NameIndexRegistered(functionImplementations, signatureByName, key);
      if key in signatureByName then Some(signatureByName[key]) else None
    }

    /** `getFunctionSignaturesByName`. A name with a dot is split on dots and
        looked up as `parts[0].parts[1]`, however many parts there are;
        fewer than two parts fail on the array access. A name without a dot
        is looked up in every registered schema, in no particular order,
        and the first hit is returned. A `null` name throws on `indexOf`. */
    method GetFunctionSignaturesByName(funcName: Option<string>) returns (r: Result<Option<Signature>, Exception>)
      ensures funcName.None? ==> r == Failure(NullPointerException)
      ensures funcName.Some? && '.' in funcName.value ==>
                var parts := JavaSplit(funcName.value);
                && (|parts| == 0 ==> r == Failure(ArrayIndexOutOfBoundsException(0)))
                && (|parts| == 1 ==> r == Failure(ArrayIndexOutOfBoundsException(1)))
                && (|parts| >= 2 ==> r == Success(LookupName(FunctionName(Some(parts[0]), parts[1]))))
      ensures funcName.Some? && '.' !in funcName.value ==>
                && r.Success?
                && (r.value.None? <==> forall s :: s in schemas ==> FunctionName(s, funcName.value) !in signatureByName)
                && (r.value.Some? ==> exists s :: s in schemas && LookupName(FunctionName(s, funcName.value)) == r.value)
    {
      if funcName.None? {
        return Failure(NullPointerException);
      }
      var name := funcName.value;
      var dot := IndexOf(name, '.');
      if dot != -1 {
        var parts := JavaSplit(name);
        if |parts| < 1 {
          return Failure(ArrayIndexOutOfBoundsException(0));
        }
        if |parts| < 2 {
          return Failure(ArrayIndexOutOfBoundsException(1));
        }
        return Success(LookupName(FunctionName(Some(parts[0]), parts[1])));
      }
      var remaining := schemas;
      while remaining != {}
        invariant remaining <= schemas
        invariant forall s :: s in schemas - remaining ==> FunctionName(s, name) !in signatureByName
        decreases |remaining|
      {
        var sch :| sch in remaining;
        var found := LookupName(FunctionName(sch, name));
        if found.Some? {
          return Success(found);
        }
        remaining := remaining - {sch};
      }
      return Success(None);
    }
  }

  /** Registering the same signature twice: the second `register` throws and
      leaves the registry as the first one made it. */
  method RegisterTwice<F>(signature: Signature, factory: F) returns (first: Outcome<Exception>, second: Outcome<Exception>)
    ensures first == Pass && second == Fail(IllegalStateException(signature))
  {
    var m := new AbstractFunctionModule<F>();
    first := m.Register(signature, factory);
    AppendedKeepsRegistered(map[], FunctionProvider(signature, factory), signature);
    second := m.Register(signature, factory);
  }

  /** A registered signature is found by its OID, by its qualified name and
      by its bare name. */
  method RegisterThenLookup<F>(signature: Signature, factory: F)
    returns (byOid: Option<Signature>, byQualified: Result<Option<Signature>, Exception>, byBare: Result<Option<Signature>, Exception>)
    requires signature.name.schema.Some? && '.' !in signature.name.schema.value
    requires '.' !in signature.name.name && signature.name.name != ""
    ensures byOid == Some(signature)
    ensures byQualified == Success(Some(signature))
    ensures byBare == Success(Some(signature))
  {
    var m := new AbstractFunctionModule<F>();
    var _ := m.Register(signature, factory);
    byOid := m.GetFunctionSignatureByOid(Some(signature.oid));
    QualifiedSplit(signature.name.schema.value, signature.name.name);
    byQualified := m.GetFunctionSignaturesByName(Some(signature.name.schema.value + "." + signature.name.name));
    byBare := m.GetFunctionSignaturesByName(Some(signature.name.name));
  }
}
