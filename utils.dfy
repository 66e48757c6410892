/** The general helpers: text truncation, phone-number display, relative
    time labels, and the deep merge of JSON-like objects. The clock and the
    locale date format are parameters. */
module Utils {
  import opened Wrappers
  import opened Strings

  // ------------------------------------------------------------ truncateText

  /** `text.slice(0, maxLength)`: a negative end counts from the back. */
  function SliceTo(text: string, end: int): (r: string)
    ensures 0 <= end <= |text| ==> r == text[..end]
  {
    if end >= 0 then text[..if end <= |text| then end else |text|]
    else text[..if |text| + end >= 0 then |text| + end else 0]
  }

  /** `truncateText`. */
  function TruncateText(text: string, maxLength: int): (r: string)
    ensures |text| <= maxLength ==> r == text
    ensures |text| > maxLength >= 0 ==>
      |r| == maxLength + 3 && r[..maxLength] == text[..maxLength] && r[maxLength..] == "..."
  {
    if |text| <= maxLength then text else SliceTo(text, maxLength) + "..."
  }

  /** Truncating what was truncated to the same length changes nothing: the
      kept prefix is cut again and the same ellipsis added. */
  lemma TruncateIdempotent(text: string, maxLength: nat)
    ensures TruncateText(TruncateText(text, maxLength), maxLength) == TruncateText(text, maxLength)
  {
    var t := TruncateText(text, maxLength);
    if |text| > maxLength {
      assert t[..maxLength] == text[..maxLength];
      assert TruncateText(t, maxLength) == t[..maxLength] + "...";
    }
  }

  // ------------------------------------------------------- formatPhoneNumber

  /** `formatPhoneNumber` for display: fewer than ten digits leave the input
      as it is; ten give "(AAA) BBB-CCCC"; more put the leading digits
      after a '+' in front of the last ten so formatted. */
  function FormatPhoneNumber(phoneNumber: string): (r: string)
    ensures |DigitsOf(phoneNumber)| < 10 ==> r == phoneNumber
    ensures |DigitsOf(phoneNumber)| == 10 ==> |r| == 14 && r[0] == '(' && r[4..6] == ") " && r[9] == '-'
    ensures |DigitsOf(phoneNumber)| > 10 ==> |r| > 0 && r[0] == '+'
  {
    var c := DigitsOf(phoneNumber);
    var n := |c|;
    if n < 10 then phoneNumber
    else if n == 10 then "(" + c[..3] + ") " + c[3..6] + "-" + c[6..]
    else "+" + c[..n - 10] + " (" + c[n - 10..n - 7] + ") " + c[n - 7..n - 4] + "-" + c[n - 4..]
  }

  lemma NoDigitsIn(s: string)
    requires forall i :: 0 <= i < |s| ==> !IsDigit(s[i])
    ensures DigitsOf(s) == ""
  {
  }

  /** Punctuation appended to a string adds no digits. */
  lemma AppendPunctuation(s: string, p: string)
    requires forall i :: 0 <= i < |p| ==> !IsDigit(p[i])
    ensures DigitsOf(s + p) == DigitsOf(s)
  {
    NoDigitsIn(p);
    DigitsOfAppend(s, p);
  }

  /** Digits appended to a string are kept after its own. */
  lemma AppendDigits(s: string, d: string)
    requires AllDigits(d)
    ensures DigitsOf(s + d) == DigitsOf(s) + d
  {
    DigitsOfAppend(s, d);
  }

  lemma {:induction false} TenDigitLayoutDigits(c: string)
    requires AllDigits(c) && |c| == 10
    ensures DigitsOf("(" + c[..3] + ") " + c[3..6] + "-" + c[6..]) == c
  {
    var a, b, d := c[..3], c[3..6], c[6..];
    var s1 := "(" + a;
    NoDigitsIn("(");
    AppendDigits("(", a);
    var s2 := s1 + ") ";
    AppendPunctuation(s1, ") ");
    var s3 := s2 + b;
    AppendDigits(s2, b);
    var s4 := s3 + "-";
    AppendPunctuation(s3, "-");
    AppendDigits(s4, d);
    assert a + b + d == c;
  }

  /** Punctuation followed by digits adds exactly those digits. */
  lemma AppendGroup(s: string, p: string, d: string)
    requires forall i :: 0 <= i < |p| ==> !IsDigit(p[i])
    requires AllDigits(d)
    ensures DigitsOf(s + p + d) == DigitsOf(s) + d
  {
    AppendPunctuation(s, p);
    AppendDigits(s + p, d);
  }

  /** The same, for a prefix whose digits are already known. */
  lemma NextGroup(s: string, x: string, k: string, d: string)
    requires forall i :: 0 <= i < |k| ==> !IsDigit(k[i])
    requires AllDigits(d)
    requires DigitsOf(s) == x
    ensures DigitsOf(s + k + d) == x + d
  {
    AppendGroup(s, k, d);
  }

  /** Punctuation, then digits: exactly those digits. */
  lemma {:induction false} PunctuationThenDigits(k: string, d: string)
    requires forall i :: 0 <= i < |k| ==> !IsDigit(k[i])
    requires AllDigits(d)
    ensures DigitsOf(k + d) == d
    decreases |k|
  {
    if k == [] {
      assert k + d == d;
    } else {
      assert (k + d)[0] == k[0];
      assert (k + d)[1..] == k[1..] + d;
      PunctuationThenDigits(k[1..], d);
    }
  }

  /** Two groups of digits, each after its own punctuation. */
  lemma TwoGroups(k1: string, p: string, k2: string, a: string)
    requires forall i :: 0 <= i < |k1| ==> !IsDigit(k1[i])
    requires forall i :: 0 <= i < |k2| ==> !IsDigit(k2[i])
    requires AllDigits(p) && AllDigits(a)
    ensures DigitsOf(k1 + p + k2 + a) == p + a
  {
    PunctuationThenDigits(k1, p);
    NextGroup(k1 + p, p, k2, a);
  }

  lemma LongLayoutDigits(c: string)
    requires AllDigits(c) && |c| > 10
    ensures var n := |c|;
      DigitsOf("+" + c[..n - 10] + " (" + c[n - 10..n - 7] + ") " + c[n - 7..n - 4] + "-" + c[n - 4..]) == c
  {
    var n := |c|;
    var p, a, b, d := c[..n - 10], c[n - 10..n - 7], c[n - 7..n - 4], c[n - 4..];
    TwoGroups("+", p, " (", a);
    NextGroup("+" + p + " (" + a, p + a, ") ", b);
    NextGroup("+" + p + " (" + a + ") " + b, p + a + b, "-", d);
    assert p + a == c[..n - 7];
    assert p + a + b == c[..n - 4];
    assert p + a + b + d == c;
  }

  /** Formatting only adds punctuation: the digits read off the result are
      the digits of the input. */
  lemma FormatKeepsDigits(phoneNumber: string)
    ensures DigitsOf(FormatPhoneNumber(phoneNumber)) == DigitsOf(phoneNumber)
  {
    var c := DigitsOf(phoneNumber);
    if |c| == 10 {
      TenDigitLayoutDigits(c);
    } else if |c| > 10 {
      LongLayoutDigits(c);
    }
  }

  /** Formatting a formatted number changes nothing. */
  lemma FormatPhoneNumberIdempotent(phoneNumber: string)
    ensures FormatPhoneNumber(FormatPhoneNumber(phoneNumber)) == FormatPhoneNumber(phoneNumber)
  {
    FormatKeepsDigits(phoneNumber);
  }

  // ------------------------------------------------------ formatRelativeTime

  const MinuteMillis: int := 60000
  const HourMillis: int := 3600000
  const DayMillis: int := 86400000

  /** `formatRelativeTime` with both instants in milliseconds since the
      epoch; `formatDate` is the locale date format of the source. The
      minutes, hours and days are floored one from the other. */
  function FormatRelativeTime(date: int, now: int, formatDate: int -> string): (r: string)
    ensures now - date < MinuteMillis ==> r == "just now"
    ensures MinuteMillis <= now - date < HourMillis ==> r == NatToString((now - date) / MinuteMillis) + "m ago"
    ensures HourMillis <= now - date < DayMillis ==> r == NatToString((now - date) / HourMillis) + "h ago"
    ensures DayMillis <= now - date < 7 * DayMillis ==> r == NatToString((now - date) / DayMillis) + "d ago"
    ensures 7 * DayMillis <= now - date ==> r == formatDate(date)
  {
    var diff := now - date;
    var minutes := diff / 60000;
    var hours := minutes / 60;
    var days := hours / 24;
    NestedFloors(diff);
    if minutes < 1 then "just now"
    else if minutes < 60 then NatToString(minutes) + "m ago"
    else if hours < 24 then NatToString(hours) + "h ago"
    else if days < 7 then NatToString(days) + "d ago"
    else formatDate(date)
  }

  /** Flooring to minutes, then hours, then days is flooring to hours or
      days directly. */
  lemma NestedFloors(diff: int)
    ensures diff / 60000 / 60 == diff / HourMillis
    ensures diff / 60000 / 60 / 24 == diff / DayMillis
  {
    var m := diff / 60000;
    assert diff == m * 60000 + diff % 60000;
    var h := m / 60;
    assert m == h * 60 + m % 60;
    assert diff == h * 3600000 + ((m % 60) * 60000 + diff % 60000);
    assert diff / 3600000 == h;
    var d := h / 24;
    assert h == d * 24 + h % 24;
    assert diff == d * 86400000 + ((h % 24) * 3600000 + (m % 60) * 60000 + diff % 60000);
    assert diff / 86400000 == d;
  }

  // -------------------------------------------------------------- deepMerge

  /** A JSON-like value; an object keeps its keys in insertion order. */
  datatype Json =
    | Null
    | Bool(b: bool)
    | Num(n: int)
    | Str(s: string)
    | Arr(items: seq<Json>)
    | Obj(entries: seq<(string, Json)>)

  /** `typeof v === 'object'`, which holds for null and arrays too. */
  predicate IsObject(v: Json)
  {
    v.Null? || v.Arr? || v.Obj?
  }

  /** The own enumerable entries, as `{...v}` and `Object.keys(v)` see
      them: an array's are its indices as strings. */
  function Fields(v: Json): (r: seq<(string, Json)>)
    requires v.Arr? || v.Obj?
    ensures v.Obj? ==> r == v.entries
    ensures v.Arr? ==> |r| == |v.items| && forall i :: 0 <= i < |r| ==> r[i] == (NatToString(i), v.items[i])
  {
    if v.Obj? then v.entries else IndexEntries(v.items, 0)
  }

  function IndexEntries(items: seq<Json>, from: nat): (r: seq<(string, Json)>)
    ensures |r| == |items|
    ensures forall i :: 0 <= i < |r| ==> r[i] == (NatToString(from + i), items[i])
    decreases |items|
  {
    if items == [] then [] else [(NatToString(from), items[0])] + IndexEntries(items[1..], from + 1)
  }

  function Keys(entries: seq<(string, Json)>): (r: seq<string>)
    ensures |r| == |entries| && forall i :: 0 <= i < |r| ==> r[i] == entries[i].0
  {
    if entries == [] then [] else [entries[0].0] + Keys(entries[1..])
  }

  /** `obj[key]`: the value under the key, None for `undefined`. */
  function Lookup(entries: seq<(string, Json)>, key: string): (r: Option<Json>)
    ensures r.None? <==> key !in Keys(entries)
    ensures r.Some? ==> exists i :: 0 <= i < |entries| && entries[i] == (key, r.value)
  {
    if entries == [] then None
    else if entries[0].0 == key then Some(entries[0].1)
    else Lookup(entries[1..], key)
  }

  /** `obj[key] = value`: an existing key keeps its place, a new one goes last. */
  function Assign(entries: seq<(string, Json)>, key: string, value: Json): (r: seq<(string, Json)>)
    ensures key in Keys(entries) ==> |r| == |entries|
    ensures key !in Keys(entries) ==> r == entries + [(key, value)]
  {
    if entries == [] then [(key, value)]
    else if entries[0].0 == key then [(key, value)] + entries[1..]
    else
      var r := [entries[0]] + Assign(entries[1..], key, value);
      assert key !in Keys(entries) ==> r == entries + [(key, value)] by {
        if key !in Keys(entries) {
          assert Keys(entries) == [entries[0].0] + Keys(entries[1..]);
          assert entries == [entries[0]] + entries[1..];
        }
      }
      r
  }

  /** After the assignment the key reads the new value and every other key
      reads as before. */
  lemma {:induction false} AssignLookup(entries: seq<(string, Json)>, key: string, value: Json)
    ensures Lookup(Assign(entries, key, value), key) == Some(value)
    ensures forall k :: k != key ==> Lookup(Assign(entries, key, value), k) == Lookup(entries, k)
    decreases |entries|
  {
    var r := Assign(entries, key, value);
    if entries != [] && entries[0].0 != key {
      var rest := Assign(entries[1..], key, value);
      AssignLookup(entries[1..], key, value);
      assert r == [entries[0]] + rest;
      assert r[1..] == rest;
      forall k | k != key ensures Lookup(r, k) == Lookup(entries, k) {
        if entries[0].0 != k {
          assert Lookup(r, k) == Lookup(rest, k);
        }
      }
    } else if entries != [] {
      assert r[1..] == entries[1..];
    }
  }

  /** The value one key of the source contributes, given the value the
      result holds under that key so far. */
  function MergeValue(current: Option<Json>, sourceValue: Json): Json
    decreases sourceValue, 2
  {
    if current.Some? && current.value.Arr? && sourceValue.Arr? then sourceValue
    else if current.Some? && IsObject(current.value) && IsObject(sourceValue) then Merge(current.value, sourceValue)
    else sourceValue
  }

  /** The source entries from `i` on, assigned one after the other. */
  function MergeFrom(acc: seq<(string, Json)>, src: seq<(string, Json)>, i: nat, ghost source: Json): seq<(string, Json)>
    requires source.Arr? || source.Obj?
    requires src == Fields(source) && i <= |src|
    decreases source, 0, |src| - i
  {
    if i == |src| then acc
    else
      assert src[i].1 < source by {
        if source.Obj? {
          assert src[i] in source.entries;
        } else {
          assert src[i].1 == source.items[i];
        }
      }
      MergeFrom(Assign(acc, src[i].0, MergeValue(Lookup(acc, src[i].0), src[i].1)), src, i + 1, source)
  }

  /** What `deepMerge(target, source)` returns. */
  function Merge(target: Json, source: Json): Json
    decreases source, 1
  {
    if !(target.Arr? || target.Obj?) || !(source.Arr? || source.Obj?) then source
    else Obj(MergeFrom(Fields(target), Fields(source), 0, source))
  }

  /** `deepMerge`: copy the target's entries, then assign every key of the
      source in order. */
  method DeepMerge(target: Json, source: Json) returns (r: Json)
    ensures r == Merge(target, source)
    decreases source
  {
    if !(target.Arr? || target.Obj?) {
      return source;
    }
    if !(source.Arr? || source.Obj?) {
      return source;
    }
    var result := Fields(target);
    var src := Fields(source);
    for i := 0 to |src|
      invariant MergeFrom(result, src, i, source) == MergeFrom(Fields(target), src, 0, source)
    {
      var key := src[i].0;
      var targetValue := Lookup(result, key);
      var sourceValue := src[i].1;
      assert sourceValue < source by {
        if source.Obj? {
          assert src[i] in source.entries;
        } else {
          assert sourceValue == source.items[i];
        }
      }
      var merged;
      if targetValue.Some? && targetValue.value.Arr? && sourceValue.Arr? {
        merged := sourceValue;
      } else if targetValue.Some? && IsObject(targetValue.value) && IsObject(sourceValue) {
        merged := DeepMerge(targetValue.value, sourceValue);
      } else {
        merged := sourceValue;
      }
      result := Assign(result, key, merged);
    }
    r := Obj(result);
  }

  /** A source that is not an object, or null, is returned as it is, and so
      is any source merged into a target that is not an object. */
  lemma NonObjectSourceWins(target: Json, source: Json)
    requires !(source.Arr? || source.Obj?) || !(target.Arr? || target.Obj?)
    ensures Merge(target, source) == source
  {
  }

  /** Keys the source does not have keep their target value. */
  lemma {:induction false} MergeFromKeepsOtherKeys(acc: seq<(string, Json)>, src: seq<(string, Json)>, i: nat,
                                                    source: Json, key: string)
    requires source.Arr? || source.Obj?
    requires src == Fields(source) && i <= |src|
    requires forall j :: i <= j < |src| ==> src[j].0 != key
    ensures Lookup(MergeFrom(acc, src, i, source), key) == Lookup(acc, key)
    decreases |src| - i
  {
    if i < |src| {
      var next := Assign(acc, src[i].0, MergeValue(Lookup(acc, src[i].0), src[i].1));
      AssignLookup(acc, src[i].0, MergeValue(Lookup(acc, src[i].0), src[i].1));
      MergeFromKeepsOtherKeys(next, src, i + 1, source, key);
    }
  }

  /** Each key of the source (keys being distinct) ends up with the merge of
      the target's value under it and the source's. */
  lemma {:induction false} MergeFromSetsSourceKeys(acc: seq<(string, Json)>, src: seq<(string, Json)>, i: nat,
                                                   source: Json, j: nat)
    requires source.Arr? || source.Obj?
    requires src == Fields(source) && i <= j < |src|
    requires forall a, b :: 0 <= a < b < |src| ==> src[a].0 != src[b].0
    ensures Lookup(MergeFrom(acc, src, i, source), src[j].0) == Some(MergeValue(Lookup(acc, src[j].0), src[j].1))
    decreases |src| - i
  {
    var key := src[j].0;
    var v := MergeValue(Lookup(acc, src[i].0), src[i].1);
    var next := Assign(acc, src[i].0, v);
    AssignLookup(acc, src[i].0, v);
    assert MergeFrom(acc, src, i, source) == MergeFrom(next, src, i + 1, source);
    if i == j {
      assert Lookup(next, key) == Some(v);
      MergeFromKeepsOtherKeys(next, src, i + 1, source, key);
    } else {
      assert src[i].0 != key;
      assert Lookup(next, key) == Lookup(acc, key);
      MergeFromSetsSourceKeys(next, src, i + 1, source, j);
    }
  }

  predicate DistinctKeys(entries: seq<(string, Json)>)
  {
    forall a, b :: 0 <= a < b < |entries| ==> entries[a].0 != entries[b].0
  }

  /** Under distinct keys, the value found for an entry's key is its own. */
  lemma LookupAt(entries: seq<(string, Json)>, j: nat)
    requires DistinctKeys(entries) && j < |entries|
    ensures Lookup(entries, entries[j].0) == Some(entries[j].1)
  {
    var key := entries[j].0;
    assert Keys(entries)[j] == key;
    var i :| 0 <= i < |entries| && entries[i] == (key, Lookup(entries, key).value);
    assert entries[i].0 == entries[j].0;
  }

  /** A key of the source object gets the merge of both values under it. */
  lemma MergeAtSourceKey(target: Json, source: Json, key: string)
    requires target.Obj? && source.Obj? && DistinctKeys(source.entries)
    requires key in Keys(source.entries)
    ensures Lookup(Merge(target, source).entries, key)
      == Some(MergeValue(Lookup(target.entries, key), Lookup(source.entries, key).value))
  {
    var src := source.entries;
    var j :| 0 <= j < |src| && Keys(src)[j] == key;
    LookupAt(src, j);
    MergeFromSetsSourceKeys(target.entries, src, 0, source, j);
  }

  /** A key the source object lacks keeps the target's value. */
  lemma MergeAtOtherKey(target: Json, source: Json, key: string)
    requires target.Obj? && source.Obj?
    requires key !in Keys(source.entries)
    ensures Lookup(Merge(target, source).entries, key) == Lookup(target.entries, key)
  {
    var src := source.entries;
    forall j | 0 <= j < |src| ensures src[j].0 != key {
      assert Keys(src)[j] == src[j].0;
    }
    MergeFromKeepsOtherKeys(target.entries, src, 0, source, key);
  }

  /** Merging two objects: target-only keys are preserved; a key in both
      where both values are arrays takes the source's array whole; a key
      where both are objects merges recursively; every other key takes the
      source's value. */
  lemma MergeObjects(target: Json, source: Json, key: string)
    requires target.Obj? && source.Obj? && DistinctKeys(source.entries)
    ensures var r := Merge(target, source).entries;
      var t := Lookup(target.entries, key);
      var s := Lookup(source.entries, key);
      (s.None? ==> Lookup(r, key) == t)
      && (s.Some? && t.Some? && t.value.Arr? && s.value.Arr? ==> Lookup(r, key) == s)
      && (s.Some? && t.Some? && t.value.Obj? && s.value.Obj? ==> Lookup(r, key) == Some(Merge(t.value, s.value)))
      && (s.Some? && (t.None? || !IsObject(t.value) || !IsObject(s.value)) ==> Lookup(r, key) == s)
  {
    if key in Keys(source.entries) {
      MergeAtSourceKey(target, source, key);
    } else {
      MergeAtOtherKey(target, source, key);
    }
  }

  /** An array target is spread into a plain object: merging two arrays at
      the top level gives an object keyed by index, not an array; only
      arrays under a key are replaced whole. */
  lemma TopLevelArraysBecomeObjects(a: seq<Json>, b: seq<Json>)
    ensures Merge(Arr(a), Arr(b)).Obj?
  {
  }
}
