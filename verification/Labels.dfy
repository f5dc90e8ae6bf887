/**
 * Label sets: the Prometheus printer with a reference parser for it, and the internal key
 * that counters, gauges and histograms store their series under.
 */
module Labels {
  import opened Common
  import opened Text

  type LabelSet = map<string, string>

  // ------------------------------------------------------------ sorted names

  /** The order of the default string sort. */
  predicate Before(a: string, b: string) {
    a == "" || (b != "" && (a[0] < b[0] || (a[0] == b[0] && Before(a[1..], b[1..]))))
  }

  lemma {:induction false} BeforeTotal(a: string, b: string)
    ensures Before(a, b) || Before(b, a)
    ensures Before(a, b) && Before(b, a) ==> a == b
  {
    if a != "" && b != "" && a[0] == b[0] {
      BeforeTotal(a[1..], b[1..]);
      assert a == [a[0]] + a[1..] && b == [b[0]] + b[1..];
    }
  }

  lemma {:induction false} BeforeTransitive(a: string, b: string, c: string)
    requires Before(a, b) && Before(b, c)
    ensures Before(a, c)
  {
    if a != "" && a[0] == b[0] == c[0] { BeforeTransitive(a[1..], b[1..], c[1..]); }
  }

  predicate IsLeast(k: string, s: set<string>) { k in s && forall j <- s :: Before(k, j) }

  lemma {:induction false} LeastExists(s: set<string>)
    requires s != {}
    ensures exists k :: IsLeast(k, s)
    ensures forall a, b :: IsLeast(a, s) && IsLeast(b, s) ==> a == b
    decreases |s|
  {
    forall a, b | IsLeast(a, s) && IsLeast(b, s) ensures a == b { BeforeTotal(a, b); }
    assert (exists x :: x in s) || s == {};
    var x :| x in s;
    var rest := s - {x};
    BeforeTotal(x, x);
    if rest == {} {
      assert s == {x};
      assert IsLeast(x, s);
    } else {
      LeastExists(rest);
      var k :| IsLeast(k, rest);
      BeforeTotal(x, k);
      if Before(k, x) {
        assert IsLeast(k, s);
      } else {
        forall j <- s ensures Before(x, j) {
          if j != x { BeforeTransitive(x, k, j); }
        }
        assert IsLeast(x, s);
      }
    }
  }

  function Least(s: set<string>): (k: string)
    requires s != {}
    ensures IsLeast(k, s)
  {
    LeastExists(s);
    var k :| IsLeast(k, s);
    k
  }

  function SortedKeys(s: set<string>): (keys: seq<string>)
    ensures forall k :: k in keys <==> k in s
    ensures |keys| == |s|
    decreases |s|
  {
    if s == {} then [] else var k := Least(s); [k] + SortedKeys(s - {k})
  }

  predicate Distinct(keys: seq<string>) {
    forall i, j | 0 <= i < j < |keys| :: keys[i] != keys[j]
  }

  lemma {:induction false} SortedKeysDistinct(s: set<string>)
    ensures Distinct(SortedKeys(s))
    decreases |s|
  {
    if s != {} { SortedKeysDistinct(s - {Least(s)}); }
  }

  // ------------------------------------------------------------------ names

  predicate IsNameStart(c: char) { 'a' <= c <= 'z' || 'A' <= c <= 'Z' || c == '_' }

  predicate IsNameChar(c: char) { IsNameStart(c) || '0' <= c <= '9' }

  /** The label name pattern: a letter or underscore, then letters, digits and underscores. */
  predicate IsLabelName(name: string) {
    name != "" && IsNameStart(name[0]) && forall c <- name :: IsNameChar(c)
  }

  predicate HasLabelNames(labels: LabelSet) { forall k <- labels :: IsLabelName(k) }

  // ---------------------------------------------------------------- printing

  function EscapeChar(c: char): string {
    match c
    case '\\' => "\\\\"
    case '\n' => "\\n"
    case '"' => "\\\""
    case _ => [c]
  }

  function EscapeLabelValue(value: string): string {
    if value == "" then "" else EscapeChar(value[0]) + EscapeLabelValue(value[1..])
  }

  function FormatPairs(keys: seq<string>, labels: LabelSet): (pairs: seq<string>)
    ensures |pairs| == |keys|
  {
    if keys == [] then []
    else [keys[0] + "=\"" + EscapeLabelValue(GetOr(labels, keys[0], "")) + "\""] + FormatPairs(keys[1..], labels)
  }

  function FormatLabelSet(labels: LabelSet): string {
    var keys := SortedKeys(labels.Keys);
    if |keys| == 0 then "" else "{" + Join(FormatPairs(keys, labels), ',') + "}"
  }

  // ------------------------------------------------- the exposition-format parser

  datatype Token = Token(text: string, rest: string)

  /** The longest run of name characters. */
  function ParseName(s: string): (t: Token)
    ensures |t.rest| <= |s|
  {
    if s == "" || !IsNameChar(s[0]) then Token("", s)
    else var t := ParseName(s[1..]); Token([s[0]] + t.text, t.rest)
  }

  function Unescaped(c: char): Option<char> {
    match c
    case '\\' => Some('\\')
    case '"' => Some('"')
    case 'n' => Some('\n')
    case _ => None
  }

  /** A value up to its closing quote, with escapes undone. */
  function ParseValue(s: string): (r: Option<Token>)
    ensures r.Some? ==> |r.value.rest| < |s|
  {
    if s == "" || s[0] == '\n' then None
    else if s[0] == '"' then Some(Token("", s[1..]))
    else
      var escape := s[0] == '\\';
      if escape && |s| < 2 then None
      else
        var c := if escape then Unescaped(s[1]) else Some(s[0]);
        var tail := ParseValue(if escape then s[2..] else s[1..]);
        if c.None? || tail.None? then None
        else Some(Token([c.value] + tail.value.text, tail.value.rest))
  }

  /** The pairs before the closing brace, each ended by a comma or the brace; no name twice. */
  function ParsePairs(s: string, parsed: LabelSet): Option<LabelSet>
    decreases |s|
  {
    if s == "}" then Some(parsed)
    else
      var name := ParseName(s);
      if !IsLabelName(name.text) || name.text in parsed || !("=\"" <= name.rest) then None
      else
        var value := ParseValue(name.rest[2..]);
        if value.None? then None
        else
          var labels := parsed[name.text := value.value.text];
          var rest := value.value.rest;
          if rest == "}" then Some(labels)
          else if rest != "" && rest[0] == ',' then ParsePairs(rest[1..], labels)
          else None
  }

  function ParseLabelSet(s: string): Option<LabelSet> {
    if s == "" then Some(map[]) else if s[0] == '{' then ParsePairs(s[1..], map[]) else None
  }

  lemma {:induction false} ParseNameOf(name: string, rest: string)
    requires forall c <- name :: IsNameChar(c)
    requires rest == "" || !IsNameChar(rest[0])
    ensures ParseName(name + rest) == Token(name, rest)
  {
    if name == "" {
      assert name + rest == rest;
    } else {
      ParseNameOf(name[1..], rest);
      assert (name + rest)[1..] == name[1..] + rest;
      assert [name[0]] + name[1..] == name;
    }
  }

  /** An escaped character is read as that character. */
  lemma {:induction false} ParseEscaped(c: char, tail: string)
    ensures var parsed := ParseValue(tail);
            ParseValue(EscapeChar(c) + tail) ==
            if parsed.None? then None else Some(Token([c] + parsed.value.text, parsed.value.rest))
  {
    var s := EscapeChar(c) + tail;
    if c == '\\' || c == '\n' || c == '"' {
      assert s[2..] == tail;
    } else {
      assert s[1..] == tail;
    }
  }

  /** Reading a value back up to its quote undoes the escaping. */
  lemma {:induction false} ParseValueOf(value: string, rest: string)
    ensures ParseValue(EscapeLabelValue(value) + "\"" + rest) == Some(Token(value, rest))
  {
    if value == "" {
      var s := EscapeLabelValue(value) + "\"" + rest;
      assert s[0] == '"' && s[1..] == rest;
    } else {
      hide ParseValue, EscapeChar;
      var tail := EscapeLabelValue(value[1..]) + "\"" + rest;
      ParseValueOf(value[1..], rest);
      ParseEscaped(value[0], tail);
      assert EscapeLabelValue(value) + "\"" + rest == EscapeChar(value[0]) + tail;
      assert [value[0]] + value[1..] == value;
    }
  }

  /** The labels of the given keys only. */
  function Restrict(keys: seq<string>, labels: LabelSet): LabelSet {
    map k | k in keys && k in labels :: labels[k]
  }

  /** One printed pair is read off the front. */
  lemma {:induction false} ParsePairsStep(name: string, value: string, rest: string, parsed: LabelSet)
    requires IsLabelName(name) && name !in parsed
    requires rest == "}" || (rest != "" && rest[0] == ',')
    ensures ParsePairs(name + "=\"" + EscapeLabelValue(value) + "\"" + rest, parsed) ==
            if rest == "}" then Some(parsed[name := value]) else ParsePairs(rest[1..], parsed[name := value])
  {
    hide ParseName, ParseValue, EscapeLabelValue;
    var s := name + "=\"" + EscapeLabelValue(value) + "\"" + rest;
    var quoted := EscapeLabelValue(value) + "\"" + rest;
    assert s == name + ("=\"" + quoted);
    ParseNameOf(name, "=\"" + quoted);
    assert ("=\"" + quoted)[2..] == quoted;
    ParseValueOf(value, rest);
    assert s[0] == name[0] != '}';
  }

  lemma FormatPairsHead(keys: seq<string>, labels: LabelSet)
    requires keys != []
    ensures Join(FormatPairs(keys, labels), ',') ==
            keys[0] + "=\"" + EscapeLabelValue(GetOr(labels, keys[0], "")) + "\"" +
            if |keys| == 1 then "" else "," + Join(FormatPairs(keys[1..], labels), ',')
  {
    hide EscapeLabelValue;
    var pairs := FormatPairs(keys, labels);
    assert pairs[1..] == FormatPairs(keys[1..], labels);
  }

  lemma {:induction false} ParsePairsOf(keys: seq<string>, labels: LabelSet, parsed: LabelSet)
    requires keys != [] && Distinct(keys)
    requires forall k <- keys :: k in labels && IsLabelName(k) && k !in parsed
    ensures ParsePairs(Join(FormatPairs(keys, labels), ',') + "}", parsed) == Some(parsed + Restrict(keys, labels))
  {
    hide ParsePairs, EscapeLabelValue, Join, FormatPairs, IsLabelName, Restrict;
    var k := keys[0];
    var more := parsed[k := labels[k]];
    RestrictToOneMore(keys, labels, parsed);
    FormatPairsHead(keys, labels);
    if |keys| == 1 {
      assert Join(FormatPairs(keys, labels), ',') + "}" == k + "=\"" + EscapeLabelValue(labels[k]) + "\"" + "}";
      ParsePairsStep(k, labels[k], "}", parsed);
    } else {
      var tail := Join(FormatPairs(keys[1..], labels), ',') + "}";
      var rest := "," + tail;
      assert Join(FormatPairs(keys, labels), ',') + "}" == k + "=\"" + EscapeLabelValue(labels[k]) + "\"" + rest;
      ParsePairsStep(k, labels[k], rest, parsed);
      assert rest[1..] == tail;
      ParsePairsOf(keys[1..], labels, more);
    }
  }

  lemma RestrictToOneMore(keys: seq<string>, labels: LabelSet, parsed: LabelSet)
    requires keys != [] && keys[0] in labels
    ensures var more := parsed[keys[0] := labels[keys[0]]];
            && parsed + Restrict(keys, labels) == more + Restrict(keys[1..], labels)
            && (|keys| == 1 ==> parsed + Restrict(keys, labels) == more)
  {
    var k, rest := keys[0], keys[1..];
    assert forall x :: x in keys <==> x == k || x in rest by { assert keys == [k] + rest; }
    var left, right := parsed + Restrict(keys, labels), parsed[k := labels[k]] + Restrict(rest, labels);
    assert left.Keys == right.Keys;
    assert forall x <- left :: left[x] == right[x];
    assert |keys| == 1 ==> rest == [];
  }

  /** The parser recovers every printed label set with pattern-valid names, whatever its values. */
  lemma ParseUndoesFormat(labels: LabelSet)
    requires HasLabelNames(labels)
    ensures ParseLabelSet(FormatLabelSet(labels)) == Some(labels)
  {
    hide ParsePairs, IsLabelName, FormatPairs, SortedKeys, Join, Distinct;
    var keys, none: LabelSet := SortedKeys(labels.Keys), map[];
    if |keys| == 0 {
      assert labels.Keys == {};
      assert labels == none;
    } else {
      SortedKeysDistinct(labels.Keys);
      forall k <- keys ensures k in labels && IsLabelName(k) && k !in none {
        assert k in labels.Keys;
      }
      ParsePairsOf(keys, labels, none);
      RestrictToAll(keys, labels);
      var body := Join(FormatPairs(keys, labels), ',') + "}";
      assert FormatLabelSet(labels) == "{" + body && ("{" + body)[1..] == body;
    }
  }

  lemma RestrictToAll(keys: seq<string>, labels: LabelSet)
    requires forall k :: k in keys <==> k in labels.Keys
    ensures Restrict(keys, labels) == labels && map[] + labels == labels
  {
    assert forall k :: k in Restrict(keys, labels) <==> k in labels.Keys;
  }

  /** Two label sets with pattern-valid names print the same only when they are the same. */
  lemma FormatIsInjective(a: LabelSet, b: LabelSet)
    requires HasLabelNames(a) && HasLabelNames(b) && FormatLabelSet(a) == FormatLabelSet(b)
    ensures a == b
  {
    ParseUndoesFormat(a);
    ParseUndoesFormat(b);
  }

  // ------------------------------------------------------------- internal keys

  function SerializePairs(keys: seq<string>, labels: LabelSet): (pairs: seq<string>)
    ensures |pairs| == |keys|
  {
    if keys == [] then [] else [keys[0] + "=" + GetOr(labels, keys[0], "undefined")] + SerializePairs(keys[1..], labels)
  }

  function SerializeLabels(labels: LabelSet): string {
    Join(SerializePairs(SortedKeys(labels.Keys), labels), ',')
  }

  /** The index of the first occurrence, or -1. */
  function IndexOf(s: string, c: char): (i: int)
    ensures i == -1 || 0 <= i < |s|
  {
    if s == "" then -1
    else if s[0] == c then 0
    else var i := IndexOf(s[1..], c); if i == -1 then -1 else i + 1
  }

  /** Assigning a string under the name `__proto__` leaves a plain record unchanged. */
  function Assign(record: LabelSet, key: string, value: string): LabelSet {
    if key == "__proto__" then record else record[key := value]
  }

  function AssignPair(record: LabelSet, pair: string): LabelSet {
    var separator := IndexOf(pair, '=');
    if separator == -1 then record else Assign(record, pair[..separator], pair[separator + 1..])
  }

  function AssignPairs(record: LabelSet, pairs: seq<string>): LabelSet {
    if pairs == [] then record else AssignPair(AssignPairs(record, pairs[..|pairs| - 1]), pairs[|pairs| - 1])
  }

  function Deserialized(serialized: string): LabelSet {
    if serialized == "" then map[] else AssignPairs(map[], Split(serialized, ','))
  }

  method DeserializeLabels(serialized: string) returns (result: LabelSet)
    ensures result == Deserialized(serialized)
  {
    if |serialized| == 0 {
      return map[];
    }
    result := map[];
    var pairs := Split(serialized, ',');
    for i := 0 to |pairs|
      invariant result == AssignPairs(map[], pairs[..i])
    {
      assert pairs[..i + 1][..i] == pairs[..i];
      var separator := IndexOf(pairs[i], '=');
      if separator == -1 {
        continue;
      }
      result := Assign(result, pairs[i][..separator], pairs[i][separator + 1..]);
    }
    assert pairs[..|pairs|] == pairs;
  }

  lemma {:induction false} IndexAfter(name: string, rest: string, c: char)
    requires c !in name
    ensures IndexOf(name + [c] + rest, c) == |name|
  {
    var s := name + [c] + rest;
    if name != "" {
      IndexAfter(name[1..], rest, c);
      assert s[1..] == name[1..] + [c] + rest;
    }
  }

  predicate CommaFree(labels: LabelSet) { forall k <- labels :: ',' !in labels[k] }

  lemma {:induction false} AssignSerialized(keys: seq<string>, labels: LabelSet)
    requires forall k <- keys :: k in labels && IsLabelName(k) && k != "__proto__"
    ensures AssignPairs(map[], SerializePairs(keys, labels)) == Restrict(keys, labels)
  {
    if keys != [] {
      var n := |keys| - 1;
      var k := keys[n];
      SerializeSnoc(keys[..n], k, labels);
      assert keys[..n] + [k] == keys;
      var pairs := SerializePairs(keys, labels);
      assert pairs[..n] == SerializePairs(keys[..n], labels);
      AssignSerialized(keys[..n], labels);
      IndexAfter(k, labels[k], '=');
      assert pairs[n][..|k|] == k && pairs[n][|k| + 1..] == labels[k];
      assert Restrict(keys[..n], labels)[k := labels[k]] == Restrict(keys, labels);
    }
  }

  lemma {:induction false} SerializeSnoc(keys: seq<string>, k: string, labels: LabelSet)
    ensures SerializePairs(keys + [k], labels) == SerializePairs(keys, labels) + [k + "=" + GetOr(labels, k, "undefined")]
  {
    if keys != [] {
      SerializeSnoc(keys[1..], k, labels);
      assert (keys + [k])[1..] == keys[1..] + [k];
    } else {
      assert SerializePairs([k][1..], labels) == [];
    }
  }

  lemma {:induction false} PairsAreCommaFree(keys: seq<string>, labels: LabelSet)
    requires CommaFree(labels) && forall k <- keys :: k in labels && IsLabelName(k)
    ensures forall pair <- SerializePairs(keys, labels) :: ',' !in pair && pair != ""
  {
    if keys != [] { PairsAreCommaFree(keys[1..], labels); }
  }

  lemma JoinNotEmpty(parts: seq<string>, separator: char)
    requires parts != [] && forall part <- parts :: part != ""
    ensures Join(parts, separator) != ""
  {
    assert parts[0] in parts;
  }

  /** What is assigned from comma-free pairs is comma-free and never under `__proto__`. */
  lemma {:induction false} AssignedIsPlain(pairs: seq<string>)
    requires forall pair <- pairs :: ',' !in pair
    ensures CommaFree(AssignPairs(map[], pairs)) && "__proto__" !in AssignPairs(map[], pairs)
  {
    if pairs != [] {
      var n := |pairs| - 1;
      AssignedIsPlain(pairs[..n]);
      AssignKeepsPlain(AssignPairs(map[], pairs[..n]), pairs[n]);
    }
  }

  lemma AssignKeepsPlain(record: LabelSet, pair: string)
    requires CommaFree(record) && "__proto__" !in record && ',' !in pair
    ensures CommaFree(AssignPair(record, pair)) && "__proto__" !in AssignPair(record, pair)
  {
    var after := AssignPair(record, pair);
    forall k <- after ensures ',' !in after[k] {
      if k !in record || after[k] != record[k] {
        assert forall c <- after[k] :: c in pair;
      }
    }
  }

  /**
   * Reading a key back gives the label set exactly when no value holds a comma and no label
   * is named `__proto__`.
   */
  lemma DeserializeUndoesSerialize(labels: LabelSet)
    requires HasLabelNames(labels)
    ensures Deserialized(SerializeLabels(labels)) == labels <==> CommaFree(labels) && "__proto__" !in labels
  {
    var keys := SortedKeys(labels.Keys);
    if CommaFree(labels) && "__proto__" !in labels {
      var pairs := SerializePairs(keys, labels);
      AssignSerialized(keys, labels);
      RestrictToAll(keys, labels);
      if keys != [] {
        PairsAreCommaFree(keys, labels);
        JoinNotEmpty(pairs, ',');
        SplitJoin(pairs, ',');
      }
    } else {
      var key := SerializeLabels(labels);
      PiecesArePlain(key, ',');
      AssignedIsPlain(Split(key, ','));
    }
  }

  /** Comma-free label sets share a key only when they are the same. */
  lemma CommaFreeKeysAreDistinct(a: LabelSet, b: LabelSet)
    requires HasLabelNames(a) && HasLabelNames(b) && CommaFree(a) && CommaFree(b)
    requires "__proto__" !in a && "__proto__" !in b && SerializeLabels(a) == SerializeLabels(b)
    ensures a == b
  {
    DeserializeUndoesSerialize(a);
    DeserializeUndoesSerialize(b);
  }

  /** With commas, two different sets over the names a and b share a key. */
  lemma {:induction false} CommasCollide()
    ensures var x: LabelSet := map["a" := "1,b=2", "b" := "3"]; var y: LabelSet := map["a" := "1", "b" := "2,b=3"];
            && x != y && x.Keys == y.Keys && HasLabelNames(x) && HasLabelNames(y)
            && SerializeLabels(x) == SerializeLabels(y) == "a=1,b=2,b=3"
  {
    var x: LabelSet, y: LabelSet := map["a" := "1,b=2", "b" := "3"], map["a" := "1", "b" := "2,b=3"];
    SortedAB();
    assert x.Keys == {"a", "b"} && y.Keys == {"a", "b"};
    assert x["a"] != y["a"];
    PairsOfTwo("a", "b", x);
    PairsOfTwo("a", "b", y);
  }

  lemma PairsOfTwo(a: string, b: string, labels: LabelSet)
    requires a in labels && b in labels
    ensures Join(SerializePairs([a, b], labels), ',') == a + "=" + labels[a] + "," + b + "=" + labels[b]
  {
    assert [a, b][1..] == [b] && [b][1..] == [];
    var pa, pb := a + "=" + labels[a], b + "=" + labels[b];
    assert SerializePairs([b], labels) == [pb];
    assert SerializePairs([a, b], labels) == [pa, pb];
    assert [pa, pb][1..] == [pb];
  }

  lemma SortedAB()
    ensures SortedKeys({"a", "b"}) == ["a", "b"]
  {
    assert !Before("b", "a");
    assert Least({"a", "b"}) == "a" by { assert "a" in {"a", "b"}; }
    assert {"a", "b"} - {"a"} == {"b"};
    assert Least({"b"}) == "b";
    assert {"b"} - {"b"} == {};
  }

  // -------------------------------------------------------- when keys are shared

  /** What stands between the value before a name and the value of that name. */
  function Delimiter(name: string): string { "," + name + "=" }

  predicate OccursAt(s: string, t: string, i: int) { 0 <= i <= |s| - |t| && s[i..i + |t|] == t }

  predicate Contains(s: string, t: string) { exists i | 0 <= i <= |s| :: OccursAt(s, t, i) }

  /** The text of names and values, each with its delimiter. */
  function Rendered(keys: seq<string>, values: seq<string>): string
    requires |keys| == |values|
  {
    if keys == [] then "" else Delimiter(keys[0]) + values[0] + Rendered(keys[1..], values[1..])
  }

  /** The text after the first delimiter. */
  function Body(keys: seq<string>, values: seq<string>): string
    requires |keys| == |values| > 0
  {
    values[0] + Rendered(keys[1..], values[1..])
  }

  /** A value spells the delimiter of the next name, or its own name's when another name comes before. */
  predicate SpillsAt(keys: seq<string>, values: seq<string>, i: int)
    requires |keys| == |values| && 0 <= i < |keys|
  {
    (i + 1 < |keys| && Contains(values[i], Delimiter(keys[i + 1]))) || (i > 0 && Contains(values[i], Delimiter(keys[i])))
  }

  predicate ArePlain(keys: seq<string>) { forall k <- keys :: ',' !in k }

  lemma {:induction false} DelimiterHasOneComma(name: string, i: int)
    requires ',' !in name && 0 < i < |Delimiter(name)|
    ensures Delimiter(name)[i] != ','
  {
    if i <= |name| { assert Delimiter(name)[i] == name[i - 1] && name[i - 1] in name; }
  }

  lemma {:induction false} TextStart(keys: seq<string>, values: seq<string>)
    requires |keys| == |values|
    ensures keys == [] ==> Rendered(keys, values) == ""
    ensures keys != [] ==> |Rendered(keys, values)| >= |Delimiter(keys[0])| && OccursAt(Rendered(keys, values), Delimiter(keys[0]), 0)
    ensures keys != [] ==> Rendered(keys, values) == Delimiter(keys[0]) + Body(keys, values) && Rendered(keys, values)[0] == ','
  {
    if keys != [] {
      var d := Delimiter(keys[0]);
      assert Rendered(keys, values) == d + Body(keys, values);
      assert Rendered(keys, values)[..|d|] == d;
    }
  }

  /**
   * A delimiter that starts inside a value, before text that is empty or starts with a comma,
   * ends inside that value.
   */
  lemma {:induction false} DelimiterStaysInside(value: string, after: string, name: string, i: int)
    requires ',' !in name && i < |value| && OccursAt(value + after, Delimiter(name), i)
    requires after == "" || after[0] == ','
    ensures OccursAt(value, Delimiter(name), i) && Contains(value, Delimiter(name))
  {
    var d, s := Delimiter(name), value + after;
    if i + |d| > |value| {
      var q := |value| - i;
      assert s[i..i + |d|][q] == s[|value|] == after[0];
      DelimiterHasOneComma(name, q);
      assert false;
    }
    assert s[i..i + |d|] == value[i..i + |d|];
    assert OccursAt(value, d, i);
  }

  /** Two ways to cut one text: the longer first part starts with the shorter one. */
  lemma {:induction false} TwoCuts(a: string, b: string, c: string, d: string)
    requires a + b == c + d && |a| <= |c|
    ensures a == c[..|a|] && b == c[|a|..] + d && c == a + c[|a|..]
  {
    assert a == (a + b)[..|a|] == (c + d)[..|a|] == c[..|a|];
    assert b == (a + b)[|a|..] == (c + d)[|a|..];
  }

  lemma {:induction false} OccursAfter(lag: string, text: string, t: string)
    requires OccursAt(text, t, 0)
    ensures OccursAt(lag + text, t, |lag|)
  {
    assert (lag + text)[|lag|..|lag| + |t|] == text[..|t|];
  }

  /** A text that starts with a delimiter cannot start again inside that delimiter. */
  lemma {:induction false} LagIsLong(name: string, tail: string, lag: string, again: string)
    requires ',' !in name && lag != "" && again != "" && again[0] == ','
    requires Delimiter(name) + tail == lag + again
    ensures |lag| >= |Delimiter(name)|
  {
    var d := Delimiter(name);
    if |lag| < |d| {
      assert d[|lag|] == (d + tail)[|lag|] == (lag + again)[|lag|] == again[0];
      DelimiterHasOneComma(name, |lag|);
    }
  }

  /** A reading that lags behind the true one: somewhere a value spells its own delimiter. */
  lemma {:induction false} LaggingSpills(keys: seq<string>, v: seq<string>, w: seq<string>, lag: string) returns (i: nat)
    requires |keys| == |v| == |w| > 0 && ArePlain(keys) && lag != "" && Rendered(keys, v) == lag + Rendered(keys, w)
    ensures i < |keys| && Contains(v[i], Delimiter(keys[i]))
    decreases |keys|
  {
    hide Rendered, OccursAt, Contains, Delimiter, Body;
    var d, rest := Delimiter(keys[0]), keys[1..];
    var after, again := Rendered(rest, v[1..]), Rendered(keys, w);
    TextStart(keys, v);
    TextStart(keys, w);
    TextStart(rest, v[1..]);
    BodyIs(keys, v);
    BodyIs(keys, w);
    assert keys[0] in keys;
    DelimiterNotEmpty(keys[0]);
    LagIsLong(keys[0], v[0] + after, lag, again);
    TwoCuts(d, v[0] + after, lag, again);
    var left := lag[|d|..];
    if |left| < |v[0]| {
      OccursAfter(left, again, d);
      DelimiterStaysInside(v[0], after, keys[0], |left|);
      i := 0;
    } else {
      TwoCuts(v[0], after, left, again);
      var behind := left[|v[0]|..] + d + w[0];
      assert after == behind + Rendered(rest, w[1..]);
      var k := LaggingSpills(rest, v[1..], w[1..], behind);
      i := k + 1;
    }
  }

  lemma {:induction false} DelimiterNotEmpty(name: string)
    ensures Delimiter(name) != ""
  {
  }

  lemma {:induction false} BodyIs(keys: seq<string>, values: seq<string>)
    requires |keys| == |values| > 0
    ensures Body(keys, values) == values[0] + Rendered(keys[1..], values[1..])
  {
  }

  /** Two readings of one text that differ: somewhere a value of the first spells a delimiter. */
  lemma {:induction false} DifferentReadingsSpill(keys: seq<string>, v: seq<string>, w: seq<string>) returns (i: nat)
    requires |keys| == |v| == |w| > 0 && ArePlain(keys) && v != w && Body(keys, v) == Body(keys, w)
    ensures i < |keys| && SpillsAt(keys, v, i)
    decreases |keys|
  {
    hide Rendered, OccursAt, Contains, Delimiter, Body;
    var rest := keys[1..];
    BodyIs(keys, v);
    BodyIs(keys, w);
    TextStart(rest, v[1..]);
    TextStart(rest, w[1..]);
    assert v == [v[0]] + v[1..] && w == [w[0]] + w[1..];
    if v[0] == w[0] {
      TwoCuts(v[0], Rendered(rest, v[1..]), w[0], Rendered(rest, w[1..]));
      assert w[0][|v[0]|..] == "" && Rendered(rest, v[1..]) == Rendered(rest, w[1..]);
      TwoCuts(Delimiter(rest[0]), Body(rest, v[1..]), Delimiter(rest[0]), Body(rest, w[1..]));
      var k := DifferentReadingsSpill(rest, v[1..], w[1..]);
      i := k + 1;
    } else if |w[0]| < |v[0]| {
      OccursAfter(w[0], Rendered(rest, w[1..]), Delimiter(rest[0]));
      assert rest[0] in keys;
      DelimiterStaysInside(v[0], Rendered(rest, v[1..]), rest[0], |w[0]|);
      i := 0;
    } else {
      TwoCuts(v[0], Rendered(rest, v[1..]), w[0], Rendered(rest, w[1..]));
      var lag := w[0][|v[0]|..];
      var k := LaggingSpills(rest, v[1..], w[1..], lag);
      i := k + 1;
    }
  }

  /** Values that agree but for two neighbours, which read the same with the delimiter between them. */
  lemma {:induction false} SameTextElsewhere(keys: seq<string>, v: seq<string>, w: seq<string>, i: nat)
    requires |keys| == |v| == |w| && i + 1 < |keys|
    requires v[i] + Delimiter(keys[i + 1]) + v[i + 1] == w[i] + Delimiter(keys[i + 1]) + w[i + 1]
    requires forall j | 0 <= j < |keys| && j != i && j != i + 1 :: v[j] == w[j]
    ensures Rendered(keys, v) == Rendered(keys, w)
    decreases i
  {
    hide Delimiter;
    if i > 0 {
      SameTextElsewhere(keys[1..], v[1..], w[1..], i - 1);
    } else {
      assert v[2..] == w[2..];
      TwoHeads(keys, v);
      TwoHeads(keys, w);
    }
  }

  lemma {:induction false} TwoHeads(keys: seq<string>, v: seq<string>)
    requires |keys| == |v| >= 2
    ensures Rendered(keys, v) == Delimiter(keys[0]) + (v[0] + Delimiter(keys[1]) + v[1]) + Rendered(keys[2..], v[2..])
  {
    hide Delimiter;
    assert keys[1..][1..] == keys[2..] && v[1..][1..] == v[2..];
    assert Rendered(keys[1..], v[1..]) == Delimiter(keys[1]) + v[1] + Rendered(keys[2..], v[2..]);
  }

  lemma {:induction false} CutOut(s: string, t: string, at: int)
    requires OccursAt(s, t, at)
    ensures 0 <= at && at + |t| <= |s| && s == s[..at] + t + s[at + |t|..]
  {
  }

  /** Where a value spells a delimiter, the text can be cut there instead. */
  lemma {:induction false} SpillReadsTwice(keys: seq<string>, v: seq<string>, i: nat) returns (w: seq<string>)
    requires |keys| == |v| && i < |keys| && SpillsAt(keys, v, i)
    ensures |w| == |v| && w != v && Rendered(keys, w) == Rendered(keys, v)
  {
    if i + 1 < |keys| && Contains(v[i], Delimiter(keys[i + 1])) {
      var d := Delimiter(keys[i + 1]);
      var at :| 0 <= at <= |v[i]| && OccursAt(v[i], d, at);
      CutOut(v[i], d, at);
      var x, y := v[i][..at], v[i][at + |d|..];
      w := v[i := x][i + 1 := y + d + v[i + 1]];
      assert |w[i]| < |v[i]|;
      assert x + d + (y + d + v[i + 1]) == (x + d + y) + d + v[i + 1];
      SameTextElsewhere(keys, w, v, i);
    } else {
      var d := Delimiter(keys[i]);
      var at :| 0 <= at <= |v[i]| && OccursAt(v[i], d, at);
      CutOut(v[i], d, at);
      var x, y := v[i][..at], v[i][at + |d|..];
      w := v[i - 1 := v[i - 1] + d + x][i := y];
      assert |w[i]| < |v[i]|;
      assert (v[i - 1] + d + x) + d + y == v[i - 1] + d + (x + d + y);
      SameTextElsewhere(keys, w, v, i - 1);
    }
  }

  // ------------------------------------------------------ keys of label sets

  function ValuesOf(keys: seq<string>, labels: LabelSet): (values: seq<string>)
    ensures |values| == |keys|
  {
    if keys == [] then [] else [GetOr(labels, keys[0], "undefined")] + ValuesOf(keys[1..], labels)
  }

  lemma {:induction false} ValueAt(keys: seq<string>, labels: LabelSet, i: nat)
    requires i < |keys|
    ensures ValuesOf(keys, labels)[i] == GetOr(labels, keys[i], "undefined")
  {
    if i > 0 { ValueAt(keys[1..], labels, i - 1); }
  }

  /** The internal key is the text without the first comma. */
  lemma {:induction false} SerializedText(keys: seq<string>, labels: LabelSet)
    requires keys != []
    ensures "," + Join(SerializePairs(keys, labels), ',') == Rendered(keys, ValuesOf(keys, labels))
  {
    var pairs := SerializePairs(keys, labels);
    assert pairs[1..] == SerializePairs(keys[1..], labels);
    assert ValuesOf(keys, labels)[1..] == ValuesOf(keys[1..], labels);
    var first := keys[0] + "=" + GetOr(labels, keys[0], "undefined");
    assert "," + first == Delimiter(keys[0]) + GetOr(labels, keys[0], "undefined");
    if |keys| > 1 {
      SerializedText(keys[1..], labels);
      assert Join(pairs, ',') == first + "," + Join(pairs[1..], ',');
    } else {
      assert Join(pairs, ',') == first;
    }
  }

  lemma {:induction false} SameValuesSameLabels(keys: seq<string>, a: LabelSet, b: LabelSet)
    requires (forall k :: k in keys <==> k in a.Keys) && a.Keys == b.Keys && ValuesOf(keys, a) == ValuesOf(keys, b)
    ensures a == b
  {
    forall k <- a ensures a[k] == b[k] {
      var i :| 0 <= i < |keys| && keys[i] == k;
      ValueAt(keys, a, i);
      ValueAt(keys, b, i);
    }
  }

  /** The label set with the given values. */
  function WithValues(keys: seq<string>, values: seq<string>): LabelSet
    requires |keys| == |values|
  {
    map k | k in keys :: values[PositionOf(keys, k)]
  }

  function PositionOf(keys: seq<string>, k: string): (i: nat)
    requires k in keys
    ensures i < |keys| && keys[i] == k
  {
    if keys[0] == k then 0 else PositionOf(keys[1..], k) + 1
  }

  lemma {:induction false} ValuesOfWithValues(keys: seq<string>, values: seq<string>)
    requires |keys| == |values| && Distinct(keys)
    ensures ValuesOf(keys, WithValues(keys, values)) == values
  {
    var labels := WithValues(keys, values);
    forall i | 0 <= i < |keys| ensures ValuesOf(keys, labels)[i] == values[i] {
      ValueAt(keys, labels, i);
      assert keys[i] in keys;
      assert PositionOf(keys, keys[i]) == i;
    }
  }

  predicate SpillsOver(labels: LabelSet) {
    var keys := SortedKeys(labels.Keys);
    exists i | 0 <= i < |keys| :: SpillsAt(keys, ValuesOf(keys, labels), i)
  }

  /**
   * A set shares its key with another set over the same names exactly when some value spells
   * the delimiter of the next name, or that of its own name when it is not the first.
   */
  lemma {:induction false} SharesKeyExactlyWhen(labels: LabelSet)
    requires HasLabelNames(labels)
    ensures (exists other: LabelSet :: other.Keys == labels.Keys && other != labels && SerializeLabels(other) == SerializeLabels(labels)) <==>
            SpillsOver(labels)
  {
    var keys := SortedKeys(labels.Keys);
    var v := ValuesOf(keys, labels);
    if SpillsOver(labels) {
      var i :| 0 <= i < |keys| && SpillsAt(keys, v, i);
      SpilledIsShared(labels, i);
    }
    if other: LabelSet :| other.Keys == labels.Keys && other != labels && SerializeLabels(other) == SerializeLabels(labels) {
      SharedSpills(labels, other);
    }
  }

  lemma {:induction false} SpilledIsShared(labels: LabelSet, i: nat)
    requires var keys := SortedKeys(labels.Keys); i < |keys| && SpillsAt(keys, ValuesOf(keys, labels), i)
    ensures exists other: LabelSet :: other.Keys == labels.Keys && other != labels && SerializeLabels(other) == SerializeLabels(labels)
  {
    hide SortedKeys, SpillsAt, Rendered, Join, SerializePairs;
    var keys := SortedKeys(labels.Keys);
    var v := ValuesOf(keys, labels);
    var w := SpillReadsTwice(keys, v, i);
    var other := WithValues(keys, w);
    SortedKeysDistinct(labels.Keys);
    ValuesOfWithValues(keys, w);
    assert forall k :: k in keys <==> k in labels.Keys;
    assert other.Keys == labels.Keys;
    SerializedText(keys, labels);
    SerializedText(keys, other);
    DropComma(Join(SerializePairs(keys, labels), ','), Join(SerializePairs(keys, other), ','));
    assert SerializeLabels(other) == SerializeLabels(labels);
  }

  lemma {:induction false} DropComma(a: string, b: string)
    ensures "," + a == "," + b ==> a == b
  {
    if "," + a == "," + b { assert ("," + a)[1..] == a && ("," + b)[1..] == b; }
  }

  lemma {:induction false} SharedSpills(labels: LabelSet, other: LabelSet)
    requires HasLabelNames(labels) && other.Keys == labels.Keys && other != labels
    requires SerializeLabels(other) == SerializeLabels(labels)
    ensures SpillsOver(labels)
  {
    hide SortedKeys, SpillsAt, Rendered, Join, SerializePairs, Body, ValuesOf, Delimiter;
    var keys := SortedKeys(labels.Keys);
    var v, w := ValuesOf(keys, labels), ValuesOf(keys, other);
    assert forall k :: k in keys <==> k in labels.Keys;
    if v == w { SameValuesSameLabels(keys, labels, other); }
    assert v != w;
    SerializedText(keys, labels);
    SerializedText(keys, other);
    TextStart(keys, v);
    TextStart(keys, w);
    TwoCuts(Delimiter(keys[0]), Body(keys, v), Delimiter(keys[0]), Body(keys, w));
    NamesArePlain(keys, labels);
    var i := DifferentReadingsSpill(keys, v, w);
  }

  lemma {:induction false} NamesArePlain(keys: seq<string>, labels: LabelSet)
    requires HasLabelNames(labels) && forall k <- keys :: k in labels
    ensures ArePlain(keys)
  {
    forall k <- keys ensures ',' !in k {
      assert IsLabelName(k);
    }
  }

  // ---------------------------------------------------------------- equality

  predicate LabelsEqual(a: LabelSet, b: LabelSet) {
    var keysA, keysB := SortedKeys(a.Keys), SortedKeys(b.Keys);
    |keysA| == |keysB| &&
    forall i | 0 <= i < |keysA| :: keysA[i] == keysB[i] && GetOr(a, keysA[i], "") == GetOr(b, keysA[i], "")
  }

  lemma {:induction false} LabelsEqualIsEquality(a: LabelSet, b: LabelSet)
    ensures LabelsEqual(a, b) <==> a == b
  {
    hide SortedKeys;
    var keysA, keysB := SortedKeys(a.Keys), SortedKeys(b.Keys);
    if LabelsEqual(a, b) {
      assert keysA == keysB;
      assert forall k :: k in keysA <==> k in a.Keys;
      forall k | k in a ensures k in b && a[k] == b[k] {
        var i :| 0 <= i < |keysA| && keysA[i] == k;
      }
    }
  }

  // ----------------------------------------------------------- normalisation

  const MAX_LABEL_NAME_LENGTH := 128
  const MAX_LABEL_VALUE_LENGTH := 256

  predicate IsSpace(c: char) {
    c in {'\t', '\n', '\U{0B}', '\U{0C}', '\r', ' ', '\U{A0}', '\U{1680}', '\U{2028}', '\U{2029}', '\U{202F}', '\U{205F}',
          '\U{3000}', '\U{FEFF}'} || '\U{2000}' <= c <= '\U{200A}'
  }

  function Trim(s: string): (t: string)
    ensures |t| <= |s|
  {
    if s != "" && IsSpace(s[0]) then Trim(s[1..])
    else if s != "" && IsSpace(s[|s| - 1]) then Trim(s[..|s| - 1])
    else s
  }

  function Cut(s: string, length: nat): string { if |s| > length then s[..length] else s }

  function Underscored(s: string): (t: string)
    ensures |t| == |s| && forall c <- t :: IsNameChar(c)
  {
    if s == "" then "" else [if IsNameChar(s[0]) then s[0] else '_'] + Underscored(s[1..])
  }

  function SanitizeLabelName(name: string): (s: string)
    ensures IsLabelName(s) && |s| <= MAX_LABEL_NAME_LENGTH
  {
    var replaced := Underscored(Trim(name));
    var named := if replaced == "" then "label" else replaced;
    Cut(if IsNameStart(named[0]) then named else "_" + named, MAX_LABEL_NAME_LENGTH)
  }

  datatype NameCheck = NameCheck(valid: bool, sanitized: string)

  function ValidateLabelName(name: string): NameCheck {
    var trimmed := Trim(name);
    if trimmed == "" then NameCheck(false, "")
    else if |trimmed| > MAX_LABEL_NAME_LENGTH then NameCheck(false, Cut(trimmed, MAX_LABEL_NAME_LENGTH))
    else if trimmed in ["__name__", "le"] then NameCheck(false, trimmed)
    else if !IsLabelName(trimmed) then NameCheck(false, SanitizeLabelName(trimmed))
    else NameCheck(true, trimmed)
  }

  function NormalizedName(name: string): string {
    var check := ValidateLabelName(name);
    if check.valid then Trim(name) else check.sanitized
  }

  function SanitizeLabelValue(value: string): string { Cut(Trim(value), MAX_LABEL_VALUE_LENGTH) }

  function Normalized(entries: seq<(string, string)>): LabelSet {
    if entries == [] then map[]
    else
      var last := entries[|entries| - 1];
      Assign(Normalized(entries[..|entries| - 1]), NormalizedName(last.0), SanitizeLabelValue(last.1))
  }

  method NormalizeLabelSet(entries: seq<(string, string)>) returns (normalized: LabelSet)
    ensures normalized == Normalized(entries)
  {
    hide ValidateLabelName, Trim, SanitizeLabelValue, Assign;
    normalized := map[];
    for i := 0 to |entries|
      invariant normalized == Normalized(entries[..i])
    {
      var (key, value) := entries[i];
      var nameResult := ValidateLabelName(key);
      var sanitizedKey := if nameResult.valid then Trim(key) else nameResult.sanitized;
      assert entries[..i + 1][..i] == entries[..i];
      normalized := Assign(normalized, sanitizedKey, SanitizeLabelValue(value));
    }
    assert entries[..|entries|] == entries;
  }

  /** The names that normalisation does not repair: blank ones, and long ones with a bad beginning. */
  predicate Repairable(name: string) {
    var trimmed := Trim(name);
    trimmed != "" && (|trimmed| > MAX_LABEL_NAME_LENGTH ==> IsLabelName(trimmed[..MAX_LABEL_NAME_LENGTH]))
  }

  /** Normalising gives a pattern-valid name exactly for the repairable ones, and keeps valid short names. */
  lemma NormalizedNameIsValid(name: string)
    ensures IsLabelName(NormalizedName(name)) <==> Repairable(name)
    ensures IsLabelName(name) && |name| <= MAX_LABEL_NAME_LENGTH ==> NormalizedName(name) == name
  {
    if IsLabelName(name) {
      assert name[0] in name && name[|name| - 1] in name;
    }
  }

  lemma {:induction false} NormalizedHasLabelNames(entries: seq<(string, string)>)
    ensures HasLabelNames(Normalized(entries)) <==> forall entry <- entries :: Repairable(entry.0)
    ensures forall k <- Normalized(entries) :: |Normalized(entries)[k]| <= MAX_LABEL_VALUE_LENGTH
  {
    if entries != [] {
      var n := |entries| - 1;
      hide IsLabelName, NormalizedName, Repairable, SanitizeLabelValue, HasLabelNames;
      NormalizedHasLabelNames(entries[..n]);
      NormalizedNameIsValid(entries[n].0);
      NormalizedStep(Normalized(entries[..n]), entries[n].0, entries[n].1);
      assert entries == entries[..n] + [entries[n]];
    }
  }

  lemma NormalizedStep(record: LabelSet, name: string, value: string)
    ensures var after := Assign(record, NormalizedName(name), SanitizeLabelValue(value));
            && (HasLabelNames(after) <==> HasLabelNames(record) && IsLabelName(NormalizedName(name)))
            && forall k <- after :: |after[k]| <= MAX_LABEL_VALUE_LENGTH || (k in record && after[k] == record[k])
  {
    hide NormalizedName;
    var key := NormalizedName(name);
    var after := Assign(record, key, SanitizeLabelValue(value));
    assert IsLabelName("__proto__");
    assert key != "__proto__" ==> key in after;
    assert forall k :: k in record ==> k in after;
  }

  /** Arbitrary input with repairable names is normalised to a set that its printed form determines. */
  lemma NormalizedPrintsBack(entries: seq<(string, string)>)
    requires forall entry <- entries :: Repairable(entry.0)
    ensures ParseLabelSet(FormatLabelSet(Normalized(entries))) == Some(Normalized(entries))
  {
    NormalizedHasLabelNames(entries);
    ParseUndoesFormat(Normalized(entries));
  }

  /** A blank name is normalised to the empty name. */
  lemma BlankNameStays()
    ensures Normalized([(" ", "v")]) == map["" := "v"] && !HasLabelNames(Normalized([(" ", "v")]))
  {
    assert Trim(" ") == "" && Trim("v") == "v";
    assert [(" ", "v")][..0] == [];
    assert "" in Normalized([(" ", "v")]);
  }
}
