/** The exact shape of printed and normalised labels: their order, their characters and their lengths. */
module LabelShapes {
  import opened Common
  import opened Labels
  import opened Text

  // ------------------------------------------------------------------ the order

  /** a is a beginning of b, or has the smaller character where they first differ. */
  ghost predicate Precedes(a: string, b: string) {
    a <= b || exists i | 0 <= i < |a| && i < |b| :: a[..i] == b[..i] && a[i] < b[i]
  }

  lemma {:induction false} BeforeIsPrecedes(a: string, b: string)
    ensures Before(a, b) <==> Precedes(a, b)
  {
    if a != "" && b != "" {
      if a[0] == b[0] {
        BeforeIsPrecedes(a[1..], b[1..]);
        SameFirstChar(a, b);
      } else {
        assert a[..0] == b[..0];
        if i :| 0 <= i < |a| && i < |b| && a[..i] == b[..i] && a[i] < b[i] {
          if i > 0 { assert a[..i][0] == b[..i][0]; }
        }
      }
    }
  }

  lemma SameFirstChar(a: string, b: string)
    requires a != "" && b != "" && a[0] == b[0]
    ensures Precedes(a, b) <==> Precedes(a[1..], b[1..])
  {
    var c, d := a[1..], b[1..];
    assert a == [a[0]] + c && b == [b[0]] + d;
    if i :| 0 <= i < |a| && i < |b| && a[..i] == b[..i] && a[i] < b[i] {
      assert c[..i - 1] == a[..i][1..] && d[..i - 1] == b[..i][1..];
      assert c[i - 1] < d[i - 1];
    }
    if j :| 0 <= j < |c| && j < |d| && c[..j] == d[..j] && c[j] < d[j] {
      assert a[..j + 1] == [a[0]] + c[..j] && b[..j + 1] == [b[0]] + d[..j];
      assert a[j + 1] < b[j + 1];
    }
  }

  /** The keys are printed in the order of their code units. */
  lemma {:induction false} KeysAscend(s: set<string>)
    ensures forall i, j | 0 <= i < j < |SortedKeys(s)| :: Precedes(SortedKeys(s)[i], SortedKeys(s)[j])
    decreases |s|
  {
    hide Precedes;
    if s != {} {
      var k, keys := Least(s), SortedKeys(s);
      KeysAscend(s - {k});
      forall i, j | 0 <= i < j < |keys| ensures Precedes(keys[i], keys[j]) {
        if i == 0 {
          assert keys[j] in keys;
          BeforeIsPrecedes(k, keys[j]);
        } else {
          assert keys[1..] == SortedKeys(s - {k});
        }
      }
    }
  }

  // --------------------------------------------------------------- printed text

  lemma {:induction false} LastKey(s: set<string>, k: string)
    requires k !in s && forall j <- s :: Before(j, k)
    ensures SortedKeys(s + {k}) == SortedKeys(s) + [k]
    decreases |s|
  {
    hide Before;
    var t := s + {k};
    if s == {} {
      assert t == {k};
      assert Least(t) == k && t - {k} == {};
    } else {
      var first := Least(s);
      LeastExists(t);
      assert IsLeast(first, t);
      assert Least(t) == first;
      assert t - {first} == (s - {first}) + {k};
      LastKey(s - {first}, k);
    }
  }

  lemma {:induction false} JoinOneMore(parts: seq<string>, part: string)
    ensures Join(parts + [part], ',') == if parts == [] then part else Join(parts, ',') + "," + part
  {
    if |parts| > 0 {
      assert (parts + [part])[1..] == parts[1..] + [part];
      JoinOneMore(parts[1..], part);
    }
  }

  function PrintedPair(k: string, v: string): string { k + "=\"" + EscapeLabelValue(v) + "\"" }

  lemma {:induction false} PairsOneMore(keys: seq<string>, labels: LabelSet, k: string, v: string)
    requires k !in keys && forall j <- keys :: j in labels
    ensures FormatPairs(keys + [k], labels[k := v]) == FormatPairs(keys, labels) + [PrintedPair(k, v)]
    ensures SerializePairs(keys + [k], labels[k := v]) == SerializePairs(keys, labels) + [k + "=" + v]
  {
    hide EscapeLabelValue;
    if keys != [] {
      assert keys[0] in keys;
      assert (keys + [k])[1..] == keys[1..] + [k];
      PairsOneMore(keys[1..], labels, k, v);
    }
  }

  /**
   * A label whose name comes after all others is printed last, before the closing brace: a
   * comma unless it is the only one, then its name and its escaped value in quotes.
   */
  lemma {:induction false} PrintedLast(labels: LabelSet, k: string, v: string)
    requires k !in labels && forall j <- labels.Keys :: Precedes(j, k)
    ensures FormatLabelSet(map[]) == "" && SerializeLabels(map[]) == ""
    ensures var text := FormatLabelSet(labels);
            FormatLabelSet(labels[k := v]) ==
            if labels == map[] then "{" + PrintedPair(k, v) + "}" else text[..|text| - 1] + "," + PrintedPair(k, v) + "}"
    ensures SerializeLabels(labels[k := v]) == if labels == map[] then k + "=" + v else SerializeLabels(labels) + "," + (k + "=" + v)
  {
    var pair := PrintedPair(k, v);
    hide EscapeLabelValue, Precedes, Before, FormatPairs, SerializePairs, SortedKeys, Join, PrintedPair, FormatLabelSet, SerializeLabels;
    var keys := SortedKeys(labels.Keys);
    forall j <- labels.Keys ensures Before(j, k) { BeforeIsPrecedes(j, k); }
    LastKey(labels.Keys, k);
    assert labels[k := v].Keys == labels.Keys + {k};
    assert labels == map[] <==> |keys| == 0;
    PairsOneMore(keys, labels, k, v);
    JoinOneMore(FormatPairs(keys, labels), pair);
    JoinOneMore(SerializePairs(keys, labels), k + "=" + v);
    NothingPrinted();
    CommaBeforeLast(Join(FormatPairs(keys, labels), ','), pair);
    PrintedLastText(labels, keys, k, v, pair);
  }

  lemma NothingPrinted()
    ensures FormatLabelSet(map[]) == "" && SerializeLabels(map[]) == ""
  {
  }

  lemma CommaBeforeLast(body: string, pair: string)
    ensures var text := "{" + body + "}"; "{" + (body + "," + pair) + "}" == text[..|text| - 1] + "," + pair + "}"
  {
    var text := "{" + body + "}";
    assert text[..|text| - 1] == "{" + body;
  }

  lemma PrintedLastText(labels: LabelSet, keys: seq<string>, k: string, v: string, pair: string)
    requires keys == SortedKeys(labels.Keys) && SortedKeys(labels[k := v].Keys) == keys + [k]
    requires FormatPairs(keys + [k], labels[k := v]) == FormatPairs(keys, labels) + [pair]
    requires SerializePairs(keys + [k], labels[k := v]) == SerializePairs(keys, labels) + [k + "=" + v]
    requires Join(FormatPairs(keys, labels) + [pair], ',') == if keys == [] then pair else Join(FormatPairs(keys, labels), ',') + "," + pair
    requires Join(SerializePairs(keys, labels) + [k + "=" + v], ',') ==
             if keys == [] then k + "=" + v else Join(SerializePairs(keys, labels), ',') + "," + (k + "=" + v)
    ensures FormatLabelSet(labels[k := v]) ==
            if keys == [] then "{" + pair + "}" else "{" + (Join(FormatPairs(keys, labels), ',') + "," + pair) + "}"
    ensures keys != [] ==> FormatLabelSet(labels) == "{" + Join(FormatPairs(keys, labels), ',') + "}"
    ensures SerializeLabels(labels[k := v]) == if keys == [] then k + "=" + v else SerializeLabels(labels) + "," + (k + "=" + v)
  {
    hide FormatPairs, SerializePairs, SortedKeys, Join;
  }

  // ---------------------------------------------------------------- trimmed text

  predicate AllSpace(s: string) { forall c <- s :: IsSpace(c) }

  /** Trimming takes blanks off both ends, and only blanks. */
  lemma {:induction false} TrimTakesBlanks(s: string) returns (left: string, right: string)
    ensures s == left + Trim(s) + right && AllSpace(left) && AllSpace(right)
    ensures Trim(s) != "" ==> !IsSpace(Trim(s)[0]) && !IsSpace(Trim(s)[|Trim(s)| - 1])
  {
    hide IsSpace, AllSpace;
    if s != "" && IsSpace(s[0]) {
      left, right := TrimTakesBlanks(s[1..]);
      BlankBefore(s, left, Trim(s[1..]), right);
      left := [s[0]] + left;
    } else if s != "" && IsSpace(s[|s| - 1]) {
      left, right := TrimTakesBlanks(s[..|s| - 1]);
      BlankAfter(s, left, Trim(s[..|s| - 1]), right);
      right := right + [s[|s| - 1]];
    } else {
      left, right := "", "";
      NothingIsBlank();
    }
  }

  lemma NothingIsBlank()
    ensures AllSpace("")
  {
  }

  lemma BlankBefore(s: string, left: string, t: string, right: string)
    requires s != "" && IsSpace(s[0]) && s[1..] == left + t + right && AllSpace(left)
    ensures s == ([s[0]] + left) + t + right && AllSpace([s[0]] + left)
  {
    hide IsSpace;
    assert s == [s[0]] + s[1..];
  }

  lemma BlankAfter(s: string, left: string, t: string, right: string)
    requires s != "" && IsSpace(s[|s| - 1]) && s[..|s| - 1] == left + t + right && AllSpace(right)
    ensures s == left + t + (right + [s[|s| - 1]]) && AllSpace(right + [s[|s| - 1]])
  {
    hide IsSpace;
    assert s == s[..|s| - 1] + [s[|s| - 1]];
  }

  // ------------------------------------------------------------- repaired names

  predicate IsLetter(c: char) { 'a' <= c <= 'z' || 'A' <= c <= 'Z' }
  predicate IsDecimal(c: char) { '0' <= c <= '9' }

  /** What a character of a name becomes. */
  function Repaired(c: char): char { if IsLetter(c) || IsDecimal(c) || c == '_' then c else '_' }

  lemma {:induction false} UnderscoredAt(s: string, i: nat)
    requires i < |s|
    ensures Underscored(s)[i] == Repaired(s[i])
  {
    if i > 0 { UnderscoredAt(s[1..], i - 1); }
  }

  /**
   * A sanitised name is the trimmed one, each character that is no letter, digit or underscore
   * replaced by an underscore, one more underscore in front of a digit, cut to 128 characters;
   * a blank name becomes "label".
   */
  lemma {:induction false} SanitizedNameIs(name: string)
    ensures var t, s := Trim(name), SanitizeLabelName(name);
            if t == "" then s == "label"
            else
              var shift := if IsDecimal(t[0]) then 1 else 0;
              && |s| == (if |t| + shift > 128 then 128 else |t| + shift)
              && (shift == 1 ==> s[0] == '_')
              && forall i | shift <= i < |s| :: s[i] == Repaired(t[i - shift])
  {
    var t := Trim(name);
    forall i | 0 <= i < |t| ensures Underscored(t)[i] == Repaired(t[i]) { UnderscoredAt(t, i); }
    hide Trim, Underscored;
  }

  /** A pattern-valid name has a letter or underscore first and only letters, digits and underscores. */
  lemma LabelNameIs(name: string)
    ensures IsLabelName(name) <==>
            name != "" && !IsDecimal(name[0]) && forall i | 0 <= i < |name| :: Repaired(name[i]) == name[i]
  {
    if name != "" && !IsDecimal(name[0]) && forall i | 0 <= i < |name| :: Repaired(name[i]) == name[i] {
      forall c <- name ensures IsNameChar(c) {
        var i :| 0 <= i < |name| && name[i] == c;
      }
    }
    if IsLabelName(name) {
      forall i | 0 <= i < |name| ensures Repaired(name[i]) == name[i] { assert name[i] in name; }
    }
  }

  /** Normalising trims; it cuts a long name, keeps a reserved or valid one, and sanitises any other. */
  lemma {:induction false} NormalizedNameIs(name: string)
    ensures var t := Trim(name);
            NormalizedName(name) ==
            if |t| > 128 then t[..128]
            else if t == "" || t == "__name__" || t == "le" || IsLabelName(t) then t
            else SanitizeLabelName(t)
  {
    hide Trim, SanitizeLabelName, IsLabelName;
  }

  // ------------------------------------------------------------- repaired values

  /** A value is trimmed and then cut to its first 256 characters. */
  lemma {:induction false} SanitizedValueIs(value: string)
    ensures var t, s := Trim(value), SanitizeLabelValue(value);
            |s| == (if |t| > 256 then 256 else |t|) && s == t[..|s|]
  {
    hide Trim;
  }

  /** Of the entries whose names normalise alike, the last gives the value; `__proto__` is never a label. */
  lemma {:induction false} LastEntryCounts(entries: seq<(string, string)>, k: string)
    ensures k in Normalized(entries) <==> k != "__proto__" && exists i | 0 <= i < |entries| :: NormalizedName(entries[i].0) == k
    ensures forall i | 0 <= i < |entries| && k != "__proto__" && NormalizedName(entries[i].0) == k ::
              (forall j | i < j < |entries| :: NormalizedName(entries[j].0) != k) ==>
                k in Normalized(entries) && Normalized(entries)[k] == SanitizeLabelValue(entries[i].1)
  {
    hide NormalizedName, SanitizeLabelValue;
    if entries != [] {
      var n := |entries| - 1;
      LastEntryCounts(entries[..n], k);
      assert forall i | 0 <= i < n :: entries[..n][i] == entries[i];
      assert entries[n] == entries[|entries| - 1];
    }
  }
}
