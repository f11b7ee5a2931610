/** Authorization scopes. Their rules match bytes, so a namespace is first written
    as one byte string, each field after its length. */
module AuthNames {
  import opened Locations
  import opened Names

  const FIELD_LIMIT: nat := 0x1_0000_0000

  /** A length is cast to 32 bits and written in network byte order. */
  function BigEndian(n: nat): (r: Bytes)
    ensures |r| == 4
  {
    [n / 256 / 256 / 256 % 256, n / 256 / 256 % 256, n / 256 % 256, n % 256]
  }

  function Field(field: Bytes): Bytes {
    BigEndian(|field| % FIELD_LIMIT) + field
  }

  function Canonical(ns: Namespace): Bytes {
    if ns == [] then [] else Field(ns[0]) + Canonical(ns[1..])
  }

  lemma {:induction false} CanonicalAppend(ns: Namespace, field: Bytes)
    ensures Canonical(ns + [field]) == Canonical(ns) + Field(field)
  {
    if ns == [] {
      assert ns + [field] == [field] && [field][1..] == [];
    } else {
      assert (ns + [field])[1..] == ns[1..] + [field];
      CanonicalAppend(ns[1..], field);
    }
  }

  method CanonicalNamespace(ns: Namespace) returns (out: Bytes)
    ensures out == Canonical(ns)
  {
    out := [];
    for i := 0 to |ns|
      invariant out == Canonical(ns[..i])
    {
      assert ns[..i + 1] == ns[..i] + [ns[i]];
      CanonicalAppend(ns[..i], ns[i]);
      out := out + BigEndian(|ns[i]| % FIELD_LIMIT);
      out := out + ns[i];
    }
    assert ns[..|ns|] == ns;
  }

  predicate FieldsFit(ns: Namespace) {
    forall i :: 0 <= i < |ns| ==> |ns[i]| < FIELD_LIMIT
  }

  lemma BigEndianInjective(m: nat, n: nat)
    requires m < FIELD_LIMIT && n < FIELD_LIMIT && BigEndian(m) == BigEndian(n)
    ensures m == n
  {
    assert BigEndian(m)[0] == BigEndian(n)[0] && BigEndian(m)[1] == BigEndian(n)[1];
    assert BigEndian(m)[2] == BigEndian(n)[2] && BigEndian(m)[3] == BigEndian(n)[3];
    FromBytes(m);
    FromBytes(n);
  }

  lemma FromBytes(n: nat)
    requires n < FIELD_LIMIT
    ensures var b := BigEndian(n); n == (b[0] as int) * 0x100_0000 + (b[1] as int) * 0x1_0000 + (b[2] as int) * 0x100 + b[3] as int
  {
    var q1, q2, q3 := n / 256, n / 256 / 256, n / 256 / 256 / 256;
    assert n == 256 * q1 + n % 256 && q1 == 256 * q2 + q1 % 256 && q2 == 256 * q3 + q2 % 256;
    assert q3 < 256;
  }

  /** Prefixes of equal-length heads split into the heads and the rests. */
  lemma PrefixSplits(a: Bytes, b: Bytes, restA: Bytes, restB: Bytes)
    requires |a| == |b|
    ensures a + restA <= b + restB <==> a == b && restA <= restB
  {
    if a + restA <= b + restB {
      assert forall i :: 0 <= i < |a| ==> a[i] == (a + restA)[i] == (b + restB)[i] == b[i];
      assert forall i :: 0 <= i < |restA| ==> restA[i] == (a + restA)[|a| + i] == (b + restB)[|b| + i] == restB[i];
    }
  }

  /** A byte prefix of an encoding starts with the same field. */
  lemma FirstFieldAgrees(a: Bytes, b: Bytes, restA: Bytes, restB: Bytes)
    requires |a| < FIELD_LIMIT && |b| < FIELD_LIMIT
    requires Field(a) + restA <= Field(b) + restB
    ensures a == b && restA <= restB
  {
    hide BigEndian;
    assert Field(a) + restA == BigEndian(|a|) + (a + restA);
    assert Field(b) + restB == BigEndian(|b|) + (b + restB);
    PrefixSplits(BigEndian(|a|), BigEndian(|b|), a + restA, b + restB);
    BigEndianInjective(|a|, |b|);
    PrefixSplits(a, b, restA, restB);
  }

  /** On encodings, being a byte prefix is being a tuple prefix. */
  lemma {:induction false} PrefixMeansTuplePrefix(p: Namespace, ns: Namespace)
    requires FieldsFit(p) && FieldsFit(ns)
    ensures Canonical(p) <= Canonical(ns) <==> p <= ns
  {
    if p != [] && ns != [] {
      PrefixMeansTuplePrefix(p[1..], ns[1..]);
      if Canonical(p) <= Canonical(ns) {
        FirstFieldAgrees(p[0], ns[0], Canonical(p[1..]), Canonical(ns[1..]));
        assert p == [p[0]] + p[1..] && ns == [ns[0]] + ns[1..];
      }
      if p <= ns {
        assert p[1..] <= ns[1..];
      }
    }
  }

  lemma EqualMeansTupleEqual(p: Namespace, ns: Namespace)
    requires FieldsFit(p) && FieldsFit(ns)
    ensures Canonical(p) == Canonical(ns) <==> p == ns
  {
    PrefixMeansTuplePrefix(p, ns);
    PrefixMeansTuplePrefix(ns, p);
  }

  lemma {:induction false} CanonicalConcat(a: Namespace, b: Namespace)
    ensures Canonical(a + b) == Canonical(a) + Canonical(b)
  {
    if a == [] {
      assert a + b == b;
    } else {
      assert (a + b)[1..] == a[1..] + b;
      CanonicalConcat(a[1..], b);
    }
  }

  /** The part of a field that its 32-bit length admits to. */
  function Declared(field: Bytes): (r: Bytes)
    ensures |r| == |field| % FIELD_LIMIT
  {
    field[..|field| % FIELD_LIMIT]
  }

  lemma DeclaredIsPrefix(field: Bytes, rest: Bytes)
    ensures Field(Declared(field)) <= Field(field) + rest
  {
    hide BigEndian;
    var size := |field| % FIELD_LIMIT;
    assert size % FIELD_LIMIT == size;
    assert Field(field) + rest == BigEndian(size) + (field + rest);
    PrefixSplits(BigEndian(size), BigEndian(size), Declared(field), field + rest);
  }

  /** A namespace with an oversized field is taken for a longer one of a tuple that it
      does not start with: the one that breaks off in the first such field. */
  lemma OversizedIsConfused(ns: Namespace, i: nat)
    requires i < |ns| && FieldsFit(ns[..i]) && |ns[i]| >= FIELD_LIMIT
    ensures var p := ns[..i] + [Declared(ns[i])]; FieldsFit(p) && Canonical(p) <= Canonical(ns) && !(p <= ns)
  {
    hide Field;
    var head, p := ns[..i], ns[..i] + [Declared(ns[i])];
    CanonicalAppend(head, Declared(ns[i]));
    assert ns == head + ns[i..];
    CanonicalConcat(head, ns[i..]);
    assert ns[i..][1..] == ns[i + 1..];
    DeclaredIsPrefix(ns[i], Canonical(ns[i + 1..]));
    PrefixSplits(Canonical(head), Canonical(head), Field(Declared(ns[i])), Canonical(ns[i..]));
    assert p[i] != ns[i];
  }

  lemma {:induction false} FirstOversized(ns: Namespace) returns (i: nat)
    requires !FieldsFit(ns)
    ensures i < |ns| && FieldsFit(ns[..i]) && |ns[i]| >= FIELD_LIMIT
  {
    if |ns[0]| >= FIELD_LIMIT {
      i := 0;
    } else {
      assert ns == [ns[0]] + ns[1..];
      var j := FirstOversized(ns[1..]);
      i := j + 1;
      assert ns[..i] == [ns[0]] + ns[1..][..j];
    }
  }

  /** The encoding decides tuple prefixes of exactly the namespaces whose fields are
      all shorter than 2^32 bytes. */
  lemma PrefixesDecidedExactly(ns: Namespace)
    ensures FieldsFit(ns) <==>
            forall p: Namespace | FieldsFit(p) :: Canonical(p) <= Canonical(ns) <==> p <= ns
  {
    if FieldsFit(ns) {
      forall p: Namespace | FieldsFit(p)
        ensures Canonical(p) <= Canonical(ns) <==> p <= ns
      {
        PrefixMeansTuplePrefix(p, ns);
      }
    } else {
      var i := FirstOversized(ns);
      OversizedIsConfused(ns, i);
    }
  }

  function Zeros(n: nat): (r: Bytes)
    ensures |r| == n
  {
    if n == 0 then [] else [0] + Zeros(n - 1)
  }

  function EmptyFields(k: nat): Namespace {
    if k == 0 then [] else [[]] + EmptyFields(k - 1)
  }

  lemma {:induction false} EmptyFieldsEncodeToZeros(k: nat)
    ensures Canonical(EmptyFields(k)) == Zeros(4 * k)
  {
    if k > 0 {
      EmptyFieldsEncodeToZeros(k - 1);
      FourZeros(4 * (k - 1));
      assert EmptyFields(k)[1..] == EmptyFields(k - 1);
      assert Field([]) == [0, 0, 0, 0];
    }
  }

  lemma FourZeros(n: nat)
    ensures [0, 0, 0, 0] + Zeros(n) == Zeros(n + 4)
  {
    assert Zeros(n + 4) == [0] + ([0] + ([0] + ([0] + Zeros(n)))) by {
      assert Zeros(n + 1) == [0] + Zeros(n);
      assert Zeros(n + 2) == [0] + Zeros(n + 1);
      assert Zeros(n + 3) == [0] + Zeros(n + 2);
    }
  }

  /** The bound on fields is needed: a field of 2^32 zero bytes is encoded like a
      run of empty fields. */
  lemma OversizedFieldCollides()
    ensures Canonical([Zeros(FIELD_LIMIT)]) == Canonical(EmptyFields(FIELD_LIMIT / 4 + 1))
  {
    OversizedField(FIELD_LIMIT);
  }

  lemma OversizedField(n: nat)
    requires n == FIELD_LIMIT
    ensures Canonical([Zeros(n)]) == Canonical(EmptyFields(n / 4 + 1))
  {
    hide Zeros;
    var field := Zeros(n);
    var ns: Namespace := [field];
    assert ns[1..] == [] && Canonical(ns) == Field(field) + Canonical([]);
    assert Field(field) == [0, 0, 0, 0] + field;
    EmptyFieldsEncodeToZeros(n / 4 + 1);
    FourZeros(n);
  }

  // --- Grants --------------------------------------------------------------------

  datatype MatchType = Exact | Prefix | Suffix | Contains

  datatype MatchRule = MatchRule(kind: MatchType, value: Bytes)

  datatype Scope = Scope(actions: seq<nat>, namespaceMatches: seq<MatchRule>, trackMatches: seq<MatchRule>)

  datatype Grants = Grants(expiresAt: int, scopes: seq<Scope>)

  predicate Occurs(needle: Bytes, text: Bytes) {
    exists i :: 0 <= i <= |text| && needle <= text[i..]
  }

  predicate RuleMatches(actual: Bytes, rule: MatchRule) {
    match rule.kind
    case Exact => actual == rule.value
    case Prefix => rule.value <= actual
    case Suffix => |actual| >= |rule.value| && actual[|actual| - |rule.value|..] == rule.value
    case Contains => Occurs(rule.value, actual)
  }

  /** A rule matches exactly the bytes that are its value, or that have it at the
      beginning, at the end, or anywhere. */
  lemma RuleMeans(actual: Bytes, value: Bytes)
    ensures RuleMatches(actual, MatchRule(Exact, value)) <==> actual == value
    ensures RuleMatches(actual, MatchRule(Prefix, value)) <==> exists after: Bytes :: actual == value + after
  {
    if value <= actual {
      assert actual == value + actual[|value|..];
    }
  }

  lemma SuffixMeans(actual: Bytes, value: Bytes)
    ensures RuleMatches(actual, MatchRule(Suffix, value)) <==> exists before: Bytes :: actual == before + value
  {
    if RuleMatches(actual, MatchRule(Suffix, value)) {
      assert actual == actual[..|actual| - |value|] + value;
    }
  }

  lemma ContainsMeans(actual: Bytes, value: Bytes)
    ensures RuleMatches(actual, MatchRule(Contains, value)) <==>
            exists before: Bytes, after: Bytes :: actual == before + (value + after)
  {
    if RuleMatches(actual, MatchRule(Contains, value)) {
      var i :| 0 <= i <= |actual| && value <= actual[i..];
      var after := actual[i + |value|..];
      assert actual[i..] == value + after;
      assert actual == actual[..i] + (value + after);
    }
    if before: Bytes, after: Bytes :| actual == before + (value + after) {
      assert actual[|before|..] == value + after;
      assert value <= actual[|before|..];
    }
  }

  predicate RulesMatch(actual: Bytes, rules: seq<MatchRule>) {
    forall i :: 0 <= i < |rules| ==> RuleMatches(actual, rules[i])
  }

  predicate ScopeAllows(scope: Scope, action: nat, ns: Namespace, track: Bytes) {
    action in scope.actions && RulesMatch(Canonical(ns), scope.namespaceMatches) && RulesMatch(track, scope.trackMatches)
  }

  /** A namespace-level check has no track; its rules then see no bytes. */
  method AllowsImpl(grants: Grants, action: nat, ns: Namespace, track: Option<Bytes>, now: int) returns (ok: bool)
    ensures ok <==>
            && now < grants.expiresAt
            && exists i :: 0 <= i < |grants.scopes| &&
                 ScopeAllows(grants.scopes[i], action, ns, if track.Some? then track.value else [])
  {
    if grants.expiresAt <= now {
      return false;
    }
    var nsBytes := CanonicalNamespace(ns);
    var trackBytes := if track.Some? then track.value else [];
    for i := 0 to |grants.scopes|
      invariant forall j :: 0 <= j < i ==> !ScopeAllows(grants.scopes[j], action, ns, trackBytes)
    {
      var scope := grants.scopes[i];
      if action in scope.actions && RulesMatch(nsBytes, scope.namespaceMatches) && RulesMatch(trackBytes, scope.trackMatches) {
        return true;
      }
    }
    return false;
  }

  /** A scope restricted to whole namespaces, by prefix or exactly, and to any
      track, decides tuple prefix and tuple equality. */
  lemma NamespaceScopesDecideTuples(action: nat, p: Namespace, ns: Namespace, track: Bytes)
    requires FieldsFit(p) && FieldsFit(ns)
    ensures ScopeAllows(Scope([action], [MatchRule(Prefix, Canonical(p))], []), action, ns, track) <==> p <= ns
    ensures ScopeAllows(Scope([action], [MatchRule(Exact, Canonical(p))], []), action, ns, track) <==> p == ns
  {
    PrefixMeansTuplePrefix(p, ns);
    EqualMeansTupleEqual(p, ns);
    assert [MatchRule(Prefix, Canonical(p))][0] == MatchRule(Prefix, Canonical(p));
    assert [MatchRule(Exact, Canonical(p))][0] == MatchRule(Exact, Canonical(p));
  }
}
