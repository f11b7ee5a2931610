/** The printable form of names recommended by the section "Representing
    Namespace and Track Names" of draft-ietf-moq-transport, and its parser. */
module SafeNames {
  import opened Locations
  import opened Names

  const DASH: Byte := 45
  const DOT: Byte := 46
  const SEPARATOR: Bytes := [DASH, DASH]

  /** Letters, digits and the underscore are printed as themselves. */
  predicate PassesThrough(c: Byte) {
    97 <= c <= 122 || 65 <= c <= 90 || 48 <= c <= 57 || c == 95
  }

  // --- Printing --------------------------------------------------------------

  /** Lower-case hexadecimal. */
  function HexDigit(n: Byte): Byte
    requires n < 16
  {
    if n < 10 then 48 + n else 87 + n
  }

  function SafeByte(c: Byte): Bytes {
    if PassesThrough(c) then [c] else [DOT, HexDigit(c / 16), HexDigit(c % 16)]
  }

  function SafeBytes(bytes: Bytes): Bytes {
    if bytes == [] then [] else SafeByte(bytes[0]) + SafeBytes(bytes[1..])
  }

  function SafeNamespace(ns: Namespace): Bytes {
    if ns == [] then []
    else if |ns| == 1 then SafeBytes(ns[0])
    else SafeBytes(ns[0]) + [DASH] + SafeNamespace(ns[1..])
  }

  function SafeFullTrackName(ftn: FullTrackName): Bytes {
    SafeNamespace(ftn.ns) + SEPARATOR + SafeBytes(ftn.track)
  }

  /** What the printed form looks like: letters, digits and the underscore stand for
      themselves, every other byte is a dot and two lower-case digits. */
  lemma PrintedForm(c: Byte)
    ensures var ch := c as char;
            if 'a' <= ch <= 'z' || 'A' <= ch <= 'Z' || '0' <= ch <= '9' || ch == '_' then SafeByte(c) == [c]
            else
              && |SafeByte(c)| == 3 && SafeByte(c)[0] as char == '.'
              && SafeByte(c)[1] as char == "0123456789abcdef"[c / 16]
              && SafeByte(c)[2] as char == "0123456789abcdef"[c % 16]
    ensures |SEPARATOR| == 2 && SEPARATOR[0] as char == '-' && SEPARATOR[1] as char == '-'
  {
    HexDigitForm(c / 16);
    HexDigitForm(c % 16);
  }

  lemma HexDigitForm(n: Byte)
    requires n < 16
    ensures HexDigit(n) as char == "0123456789abcdef"[n]
  {
  }

  lemma {:induction false} SafeBytesAppend(a: Bytes, c: Byte)
    ensures SafeBytes(a + [c]) == SafeBytes(a) + SafeByte(c)
  {
    if a == [] {
      assert [c][1..] == [];
    } else {
      assert (a + [c])[1..] == a[1..] + [c];
      SafeBytesAppend(a[1..], c);
    }
  }

  method AppendSafe(prefix: Bytes, bytes: Bytes) returns (out: Bytes)
    ensures out == prefix + SafeBytes(bytes)
  {
    out := prefix;
    for i := 0 to |bytes|
      invariant out == prefix + SafeBytes(bytes[..i])
    {
      var c := bytes[i];
      assert bytes[..i + 1] == bytes[..i] + [c];
      SafeBytesAppend(bytes[..i], c);
      if PassesThrough(c) {
        out := out + [c];
      } else {
        out := out + [DOT];
        out := out + [HexDigit(c / 16)];
        out := out + [HexDigit(c % 16)];
      }
    }
    assert bytes[..|bytes|] == bytes;
  }

  lemma {:induction false} SafeNamespaceSplits(ns: Namespace)
    requires |ns| > 1
    ensures SafeNamespace(ns) == SafeBytes(ns[0]) + [DASH] + SafeNamespace(ns[1..])
  {
    hide SafeBytes;
  }

  lemma JoinsAssociate(a: Bytes, b: Bytes, c: Bytes)
    ensures a + [DASH] + (b + [DASH] + c) == a + [DASH] + b + [DASH] + c
  {
  }

  lemma {:induction false} SafeNamespaceAppend(ns: Namespace, tuple: Bytes)
    requires ns != []
    ensures SafeNamespace(ns + [tuple]) == SafeNamespace(ns) + [DASH] + SafeBytes(tuple)
  {
    hide SafeBytes;
    var longer := ns + [tuple];
    SafeNamespaceSplits(longer);
    if |ns| == 1 {
      assert longer[1..] == [tuple];
    } else {
      hide SafeNamespace;
      assert longer[1..] == ns[1..] + [tuple];
      SafeNamespaceAppend(ns[1..], tuple);
      SafeNamespaceSplits(ns);
      JoinsAssociate(SafeBytes(ns[0]), SafeNamespace(ns[1..]), SafeBytes(tuple));
    }
  }

  method AppendSafeNamespace(ns: Namespace) returns (out: Bytes)
    ensures out == SafeNamespace(ns)
  {
    out := [];
    var first := true;
    for i := 0 to |ns|
      invariant first == (i == 0)
      invariant out == SafeNamespace(ns[..i])
    {
      assert ns[..i + 1] == ns[..i] + [ns[i]];
      if !first {
        SafeNamespaceAppend(ns[..i], ns[i]);
        out := out + [DASH];
      }
      first := false;
      out := AppendSafe(out, ns[i]);
    }
    assert ns[..|ns|] == ns;
  }

  method SafeName(ftn: FullTrackName) returns (out: Bytes)
    ensures out == SafeFullTrackName(ftn)
  {
    out := AppendSafeNamespace(ftn.ns);
    out := out + SEPARATOR;
    out := AppendSafe(out, ftn.track);
  }

  // --- Parsing ---------------------------------------------------------------

  /** Upper and lower case mean the same. */
  function HexValue(c: Byte): Option<Byte> {
    if 48 <= c <= 57 then Some(c - 48)
    else if 97 <= c <= 102 then Some(c - 87)
    else if 65 <= c <= 70 then Some(c - 55)
    else None
  }

  /** A hexadecimal digit of either case, and nothing else, has a value. */
  lemma HexValueMeans(c: Byte, v: Byte)
    ensures HexValue(c) == Some(v) <==>
            v < 16 && (c as char == "0123456789abcdef"[v] || c as char == "0123456789ABCDEF"[v])
  {
  }

  function DecodeHexPair(high: Byte, low: Byte): Option<Byte> {
    if HexValue(high).None? || HexValue(low).None? then None
    else
      var value := HexValue(high).value * 16 + HexValue(low).value;
      if value < 256 then Some(value) else None
  }

  function Prepend(b: Byte, rest: Option<Bytes>): Option<Bytes> {
    if rest.None? then None else Some([b] + rest.value)
  }

  function ParseBytes(text: Bytes): Option<Bytes> {
    if text == [] then Some([])
    else if PassesThrough(text[0]) then Prepend(text[0], ParseBytes(text[1..]))
    else if text[0] != DOT || |text| < 3 then None
    else
      var byte := DecodeHexPair(text[1], text[2]);
      if byte.None? then None else Prepend(byte.value, ParseBytes(text[3..]))
  }

  /** `whole` is `done` followed by what parsing the remaining text gives. */
  predicate Continues<T(==)>(whole: Option<seq<T>>, done: seq<T>, rest: Option<seq<T>>) {
    whole.None? == rest.None? && (whole.Some? ==> whole.value == done + rest.value)
  }

  lemma ContinuesStep<T>(whole: Option<seq<T>>, done: seq<T>, x: T, rest: Option<seq<T>>, later: Option<seq<T>>)
    requires Continues(whole, done, rest) && rest.None? == later.None?
    requires rest.Some? ==> rest.value == [x] + later.value
    ensures Continues(whole, done + [x], later)
  {
    if rest.Some? {
      assert done + ([x] + later.value) == done + [x] + later.value;
    }
  }

  method ParseSafeBytes(text: Bytes) returns (r: Option<Bytes>)
    ensures r == ParseBytes(text)
  {
    var out: Bytes := [];
    var i := 0;
    assert text[0..] == text;
    while i < |text|
      invariant 0 <= i <= |text|
      invariant Continues(ParseBytes(text), out, ParseBytes(text[i..]))
    {
      var rest := text[i..];
      assert rest[1..] == text[i + 1..];
      if PassesThrough(text[i]) {
        ContinuesStep(ParseBytes(text), out, text[i], ParseBytes(rest), ParseBytes(text[i + 1..]));
        out := out + [text[i]];
        i := i + 1;
      } else {
        if text[i] != DOT || i + 2 >= |text| {
          return None;
        }
        assert rest[3..] == text[i + 3..];
        var byte := DecodeHexPair(text[i + 1], text[i + 2]);
        if byte.None? {
          return None;
        }
        ContinuesStep(ParseBytes(text), out, byte.value, ParseBytes(rest), ParseBytes(text[i + 3..]));
        out := out + [byte.value];
        i := i + 3;
      }
    }
    assert text[i..] == [] && out + [] == out;
    return Some(out);
  }

  /** The first dash at or after the start, or the end of the text. */
  function FindDash(text: Bytes): (i: nat)
    ensures i <= |text| && (i < |text| ==> text[i] == DASH)
    ensures forall j :: 0 <= j < i ==> text[j] != DASH
  {
    if text == [] || text[0] == DASH then 0 else 1 + FindDash(text[1..])
  }

  /** Every piece between dashes is a tuple, empty pieces included. */
  function ParseTuples(text: Bytes): Option<Namespace>
    decreases |text|
  {
    var end := FindDash(text);
    var tuple := ParseBytes(text[..end]);
    if tuple.None? then None
    else if end == |text| then Some([tuple.value])
    else
      var rest := ParseTuples(text[end + 1..]);
      if rest.None? then None else Some([tuple.value] + rest.value)
  }

  function ParseNamespace(text: Bytes): Option<Namespace> {
    if text == [] then Some([]) else ParseTuples(text)
  }

  /** One turn of the loop: the tuple that ends at the next dash, and the rest. */
  lemma {:induction false} NextTuple(text: Bytes, start: nat, end: nat)
    requires start <= |text| && end == start + FindDash(text[start..])
    ensures end <= |text|
    ensures var whole, tuple := ParseTuples(text[start..]), ParseBytes(text[start..end]);
            && (tuple.None? ==> whole.None?)
            && (tuple.Some? && end == |text| ==> whole == Some([tuple.value]))
            && (tuple.Some? && end < |text| ==>
                  var rest := ParseTuples(text[end + 1..]);
                  (rest.None? <==> whole.None?) && (rest.Some? ==> whole.value == [tuple.value] + rest.value))
  {
    hide ParseBytes;
    var from := text[start..];
    assert from[..end - start] == text[start..end];
    if end < |text| {
      assert from[end - start + 1..] == text[end + 1..];
    }
  }

  method ParseSafeNamespace(text: Bytes) returns (r: Option<Namespace>)
    ensures r == ParseNamespace(text)
  {
    hide ParseBytes, ParseTuples;
    var tuples: Namespace := [];
    if text != [] {
      var start := 0;
      assert text[0..] == text;
      while start <= |text|
        invariant 0 <= start <= |text|
        invariant Continues(ParseTuples(text), tuples, ParseTuples(text[start..]))
        decreases |text| - start
      {
        var end := start + FindDash(text[start..]);
        NextTuple(text, start, end);
        var decoded := ParseSafeBytes(text[start..end]);
        if decoded.None? {
          return None;
        }
        if end == |text| {
          return Some(tuples + [decoded.value]);
        }
        ContinuesStep(ParseTuples(text), tuples, decoded.value, ParseTuples(text[start..]), ParseTuples(text[end + 1..]));
        tuples := tuples + [decoded.value];
        start := end + 1;
      }
    }
    return Some(tuples);
  }

  /** The highest start of the separator. */
  function LastSeparator(text: Bytes): (r: Option<nat>)
    ensures r.Some? ==> r.value + 2 <= |text| && text[r.value..r.value + 2] == SEPARATOR
    decreases |text|
  {
    if |text| < 2 then None
    else if text[|text| - 2..] == SEPARATOR then Some(|text| - 2)
    else
      var r := LastSeparator(text[..|text| - 1]);
      assert r.Some? ==> text[..|text| - 1][r.value..r.value + 2] == text[r.value..r.value + 2];
      r
  }

  function ParseFullTrackName(text: Bytes): Option<FullTrackName> {
    var split := LastSeparator(text);
    if split.None? then None
    else
      var ns, track := ParseNamespace(text[..split.value]), ParseBytes(text[split.value + 2..]);
      if ns.None? || track.None? then None else Some(FullTrackName(ns.value, track.value))
  }

  method ParseSafeFullTrackName(text: Bytes) returns (r: Option<FullTrackName>)
    ensures r == ParseFullTrackName(text)
  {
    var split := LastSeparator(text);
    if split.None? {
      return None;
    }
    var ns := ParseSafeNamespace(text[..split.value]);
    var track := ParseSafeBytes(text[split.value + 2..]);
    if ns.None? || track.None? {
      return None;
    }
    return Some(FullTrackName(ns.value, track.value));
  }

  // --- Round trips -------------------------------------------------------------

  lemma DecodeEncode(c: Byte)
    ensures DecodeHexPair(HexDigit(c / 16), HexDigit(c % 16)) == Some(c)
  {
  }

  lemma {:induction false} BytesRoundTrip(bytes: Bytes)
    ensures ParseBytes(SafeBytes(bytes)) == Some(bytes)
  {
    if bytes != [] {
      var head, tail := SafeByte(bytes[0]), SafeBytes(bytes[1..]);
      BytesRoundTrip(bytes[1..]);
      DecodeEncode(bytes[0]);
      assert (head + tail)[|head|..] == tail;
      assert bytes == [bytes[0]] + bytes[1..];
    }
  }

  /** Text in the form that printing produces: lower-case digits, and only bytes that
      do not pass through are escaped. */
  predicate Printed(text: Bytes) {
    if text == [] then true
    else if PassesThrough(text[0]) then Printed(text[1..])
    else
      && |text| >= 3 && text[0] == DOT && DecodeHexPair(text[1], text[2]).Some?
      && SafeByte(DecodeHexPair(text[1], text[2]).value) == text[..3] && Printed(text[3..])
  }

  /** The parser accepts more than the printer prints. Printing what was parsed gives
      the text back exactly when it was in printed form. */
  lemma {:induction false} ParseThenPrint(text: Bytes)
    ensures Printed(text) <==> ParseBytes(text).Some? && SafeBytes(ParseBytes(text).value) == text
  {
    if text != [] {
      var size := if PassesThrough(text[0]) then 1 else 3;
      if |text| >= size {
        var rest := text[size..];
        ParseThenPrint(rest);
        if ParseBytes(text).Some? {
          var bytes := ParseBytes(text).value;
          assert bytes[1..] == ParseBytes(rest).value;
          assert text == text[..size] + rest;
          SafeByteSize(bytes[0], text, size, rest, SafeBytes(bytes[1..]));
        }
      }
    }
  }

  lemma SafeByteSize(c: Byte, text: Bytes, size: nat, rest: Bytes, printed: Bytes)
    requires size <= |text| && text == text[..size] + rest && (size == 1 || size == 3)
    requires size == 1 ==> c == text[0] && PassesThrough(c)
    requires size == 3 ==> text[0] == DOT
    ensures SafeByte(c) + printed == text <==> SafeByte(c) == text[..size] && printed == rest
  {
    if SafeByte(c) + printed == text {
      assert SafeByte(c)[0] == text[0];
      assert |SafeByte(c)| == size;
      assert (SafeByte(c) + printed)[..size] == SafeByte(c) && (SafeByte(c) + printed)[size..] == printed;
    }
  }

  lemma {:induction false} SafeBytesHasNoDash(bytes: Bytes)
    ensures DASH !in SafeBytes(bytes)
  {
    if bytes != [] {
      SafeBytesHasNoDash(bytes[1..]);
    }
  }

  lemma {:induction false} FindDashAfter(a: Bytes, b: Bytes)
    requires DASH !in a && (b == [] || b[0] == DASH)
    ensures FindDash(a + b) == |a|
  {
    if a != [] {
      assert (a + b)[1..] == a[1..] + b;
      FindDashAfter(a[1..], b);
    } else {
      assert a + b == b;
    }
  }

  lemma {:induction false} ParseLastTuple(head: Bytes)
    requires DASH !in head && ParseBytes(head).Some?
    ensures ParseTuples(head) == Some([ParseBytes(head).value])
  {
    hide ParseBytes;
    FindDashAfter(head, []);
    assert head + [] == head && head[..|head|] == head;
  }

  lemma {:induction false} ParseFirstTuple(head: Bytes, rest: Bytes)
    requires DASH !in head && ParseBytes(head).Some? && ParseTuples(rest).Some?
    ensures ParseTuples(head + [DASH] + rest) == Some([ParseBytes(head).value] + ParseTuples(rest).value)
  {
    hide ParseBytes;
    var text := head + [DASH] + rest;
    assert text == head + ([DASH] + rest);
    FindDashAfter(head, [DASH] + rest);
    assert text[..|head|] == head && text[|head| + 1..] == rest;
  }

  lemma {:induction false} TuplesRoundTrip(ns: Namespace)
    requires ns != []
    ensures ParseTuples(SafeNamespace(ns)) == Some(ns)
  {
    var head := SafeBytes(ns[0]);
    SafeBytesHasNoDash(ns[0]);
    BytesRoundTrip(ns[0]);
    assert ns == [ns[0]] + ns[1..];
    if |ns| == 1 {
      ParseLastTuple(head);
      assert ns == [ns[0]];
    } else {
      TuplesRoundTrip(ns[1..]);
      ParseFirstTuple(head, SafeNamespace(ns[1..]));
    }
  }

  lemma {:induction false} SafeBytesEmpty(bytes: Bytes)
    ensures SafeBytes(bytes) == [] <==> bytes == []
  {
  }

  lemma SafeNamespaceEmpty(ns: Namespace)
    ensures SafeNamespace(ns) == [] <==> ns == [] || ns == [[]]
  {
    if |ns| == 1 {
      SafeBytesEmpty(ns[0]);
    }
  }

  /** Printing a namespace and parsing it back is the identity, with exactly one
      exception: the namespace of a single empty tuple prints like no tuple. */
  lemma NamespaceRoundTrip(ns: Namespace)
    ensures ParseNamespace(SafeNamespace(ns)) == Some(ns) <==> ns != [[]]
    ensures ParseNamespace(SafeNamespace([[]])) == Some([])
  {
    SafeNamespaceEmpty(ns);
    SafeNamespaceEmpty([[]]);
    if ns != [] {
      TuplesRoundTrip(ns);
    }
  }

  lemma {:induction false} LastSeparatorBefore(a: Bytes, b: Bytes)
    requires DASH !in b
    ensures LastSeparator(a + SEPARATOR + b) == Some(|a|)
    decreases |b|
  {
    var text := a + SEPARATOR + b;
    if b == [] {
      assert text[|text| - 2..] == SEPARATOR;
    } else {
      assert text[|text| - 1] == b[|b| - 1];
      assert text[|text| - 2..][1] != DASH;
      assert text[..|text| - 1] == a + SEPARATOR + b[..|b| - 1];
      LastSeparatorBefore(a, b[..|b| - 1]);
    }
  }

  /** The same for full track names: the separator is found again even behind a
      namespace that ends in empty tuples. */
  lemma FullTrackNameRoundTrip(ftn: FullTrackName)
    ensures ParseFullTrackName(SafeFullTrackName(ftn)) == Some(ftn) <==> ftn.ns != [[]]
  {
    var ns, track := SafeNamespace(ftn.ns), SafeBytes(ftn.track);
    var text := SafeFullTrackName(ftn);
    SafeBytesHasNoDash(ftn.track);
    LastSeparatorBefore(ns, track);
    assert text[..|ns|] == ns && text[|ns| + 2..] == track;
    NamespaceRoundTrip(ftn.ns);
    BytesRoundTrip(ftn.track);
  }

  /** Two full track names share a printed form only if they are equal, or
      differ in nothing but no tuple against one empty tuple. */
  lemma SafeNameInjective(a: FullTrackName, b: FullTrackName)
    ensures SafeFullTrackName(a) == SafeFullTrackName(b) <==>
            a.track == b.track && (a.ns == b.ns || (a.ns in {[], [[]]} && b.ns in {[], [[]]}))
  {
    var canonA := FullTrackName(if a.ns == [[]] then [] else a.ns, a.track);
    var canonB := FullTrackName(if b.ns == [[]] then [] else b.ns, b.track);
    SafeNamespaceEmpty([]);
    SafeNamespaceEmpty([[]]);
    assert SafeFullTrackName(a) == SafeFullTrackName(canonA);
    assert SafeFullTrackName(b) == SafeFullTrackName(canonB);
    FullTrackNameRoundTrip(canonA);
    FullTrackNameRoundTrip(canonB);
  }
}
