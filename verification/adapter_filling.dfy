/** Replacing placeholders one key after another, compared with filling them all in one scan. */
module AdapterFilling {
  import opened Options
  import opened Text
  import opened AdapterCommand

  // ---------- one scan ----------

  function Prepend(front: string, r: Result<string>): Result<string> {
    if r.Ok? then Ok(front + r.value) else r
  }

  /** The key whose placeholder begins the text. */
  function KeyAt(s: string, keys: seq<string>): Option<string> {
    if keys == [] then None else if Placeholder(keys[0]) <= s then Some(keys[0]) else KeyAt(s, keys[1..])
  }

  predicate Blank(values: Values, key: string) {
    TrimSpace(ValueOf(values, key)) == ""
  }

  /** One scan from the left: each placeholder becomes its value, which is not looked at again; a
      brace that belongs to no placeholder is an error. */
  function FillOnce(s: string, keys: seq<string>, values: Values): Result<string> {
    if s == "" then Ok("")
    else
      match KeyAt(s, keys)
      case Some(key) =>
        if Blank(values, key) then Err(MissingValue(key))
        else if Placeholder(key) <= s then Prepend(ValueOf(values, key), FillOnce(s[|Placeholder(key)|..], keys, values))
        else Err(UnknownPlaceholder)
      case None =>
        if s[0] == '{' || s[0] == '}' then Err(UnknownPlaceholder)
        else Prepend([s[0]], FillOnce(s[1..], keys, values))
  }

  /** No brace is opened inside an open one. */
  predicate Flat(s: string) {
    s == "" || if s[0] == '{' then FlatInside(s[1..]) else Flat(s[1..])
  }

  predicate FlatInside(s: string) {
    s == "" || (s[0] != '{' && if s[0] == '}' then Flat(s[1..]) else FlatInside(s[1..]))
  }

  predicate Names(keys: seq<string>) {
    forall i :: 0 <= i < |keys| ==> BraceFree(keys[i])
  }

  // ---------- how placeholders sit in a text ----------

  lemma {:induction false} ReplaceSkips(lit: string, rest: string, key: string, with: string)
    requires '{' !in lit
    ensures ReplaceAll(lit + rest, Placeholder(key), with) == lit + ReplaceAll(rest, Placeholder(key), with)
    ensures Contains(lit + rest, Placeholder(key)) == Contains(rest, Placeholder(key))
  {
    if lit == "" {
      assert lit + rest == rest;
    } else {
      assert (lit + rest)[0] == lit[0] != Placeholder(key)[0];
      assert (lit + rest)[1..] == lit[1..] + rest;
      ReplaceSkips(lit[1..], rest, key, with);
    }
  }

  /** Placeholders with brace-free names match only their own name. */
  lemma PlaceholderMatches(name: string, rest: string, key: string)
    requires BraceFree(name) && BraceFree(key)
    ensures Placeholder(key) <= Placeholder(name) + rest <==> name == key
  {
    var s := Placeholder(name) + rest;
    var at := if |key| < |name| then |key| else |name|;
    assert s[at + 1] == if |key| < |name| then name[at] else '}';
    assert Placeholder(key)[at + 1] == if |name| < |key| then key[at] else '}';
    if Placeholder(key) <= s {
      assert |key| == |name|;
      assert forall i :: 0 <= i < |key| ==> key[i] == Placeholder(key)[i + 1] == s[i + 1] == name[i];
      assert key == name;
    }
  }

  lemma ReplaceHole(name: string, rest: string, key: string, with: string)
    requires BraceFree(name) && BraceFree(key)
    ensures ReplaceAll(Placeholder(name) + rest, Placeholder(key), with)
         == (if name == key then with else Placeholder(name)) + ReplaceAll(rest, Placeholder(key), with)
    ensures Contains(Placeholder(name) + rest, Placeholder(key)) <==> name == key || Contains(rest, Placeholder(key))
  {
    var s := Placeholder(name) + rest;
    PlaceholderMatches(name, rest, key);
    if name == key {
      assert s[|Placeholder(key)|..] == rest;
    }
    assert s[1..] == (name + "}") + rest;
    ReplaceSkips(name + "}", rest, key, with);
    assert ['{'] + ((name + "}") + ReplaceAll(rest, Placeholder(key), with))
        == Placeholder(name) + ReplaceAll(rest, Placeholder(key), with);
  }

  /** The rest of a text that begins with a placeholder. */
  function After(s: string, key: string): string
    requires Placeholder(key) <= s
  {
    s[|Placeholder(key)|..]
  }

  lemma {:induction false} KeyAtFinds(s: string, keys: seq<string>)
    ensures match KeyAt(s, keys)
            case Some(key) => key in keys && Placeholder(key) <= s && s == Placeholder(key) + After(s, key)
            case None => forall i :: 0 <= i < |keys| ==> !(Placeholder(keys[i]) <= s)
  {
    if keys != [] && !(Placeholder(keys[0]) <= s) {
      KeyAtFinds(s, keys[1..]);
    }
  }

  /** A text begins with a key's placeholder exactly when that key is found there. */
  lemma KeyAtIs(s: string, keys: seq<string>, key: string)
    requires Names(keys) && key in keys
    ensures Placeholder(key) <= s <==> KeyAt(s, keys) == Some(key)
  {
    KeyAtFinds(s, keys);
    if Placeholder(key) <= s && KeyAt(s, keys).Some? {
      PlaceholderMatches(KeyAt(s, keys).value, After(s, KeyAt(s, keys).value), key);
    }
  }

  lemma {:induction false} InsideIsFlat(s: string)
    requires FlatInside(s)
    ensures Flat(s)
  {
    if s != "" && s[0] != '}' {
      InsideIsFlat(s[1..]);
    }
  }

  lemma {:induction false} FlatThrough(lit: string, rest: string)
    requires BraceFree(lit)
    ensures Flat(lit + rest) <==> Flat(rest)
    ensures FlatInside(lit + "}" + rest) <==> Flat(rest)
  {
    if lit == "" {
      assert lit + rest == rest && lit + "}" + rest == "}" + rest;
    } else {
      assert (lit + rest)[1..] == lit[1..] + rest && (lit + "}" + rest)[1..] == lit[1..] + "}" + rest;
      FlatThrough(lit[1..], rest);
    }
  }

  lemma FlatAfterHole(name: string, rest: string)
    requires BraceFree(name)
    ensures Flat(Placeholder(name) + rest) <==> Flat(rest)
  {
    assert (Placeholder(name) + rest)[1..] == name + "}" + rest;
    FlatThrough(name, rest);
  }

  /** Inside an open brace, replacing leaves the text up to the closing one as it is. */
  lemma {:induction false} InsideIsKept(s: string, key: string, with: string, name: string)
    requires FlatInside(s) && BraceFree(name)
    ensures name + "}" <= ReplaceAll(s, Placeholder(key), with) <==> name + "}" <= s
  {
    if s != "" {
      var r := ReplaceAll(s[1..], Placeholder(key), with);
      assert ReplaceAll(s, Placeholder(key), with) == [s[0]] + r;
      PrefixByHead(name + "}", [s[0]] + r);
      PrefixByHead(name + "}", s);
      assert ([s[0]] + r)[1..] == r;
      if name == "" {
        assert (name + "}")[1..] == "";
      } else if s[0] != '}' {
        InsideIsKept(s[1..], key, with, name[1..]);
        assert (name + "}")[1..] == name[1..] + "}";
      }
    }
  }

  lemma PrefixByHead(p: string, s: string)
    requires p != "" && s != ""
    ensures p <= s <==> p[0] == s[0] && p[1..] <= s[1..]
  {
    if p[0] == s[0] && p[1..] <= s[1..] {
      assert forall i :: 0 < i < |p| ==> p[i] == p[1..][i - 1] == s[1..][i - 1] == s[i];
    }
  }

  /** An opening brace begins the same placeholder, or none, after a replacement inside. */
  lemma OpeningIsKept(s: string, key: string, with: string, name: string)
    requires s != "" && s[0] == '{' && FlatInside(s[1..]) && BraceFree(name)
    ensures Placeholder(name) <= ['{'] + ReplaceAll(s[1..], Placeholder(key), with) <==> Placeholder(name) <= s
  {
    var t := ['{'] + ReplaceAll(s[1..], Placeholder(key), with);
    InsideIsKept(s[1..], key, with, name);
    PrefixByHead(Placeholder(name), s);
    PrefixByHead(Placeholder(name), t);
    assert Placeholder(name)[1..] == name + "}" && t[1..] == ReplaceAll(s[1..], Placeholder(key), with);
  }

  // ---------- one key replaced ----------

  function Put(s: string, key: string, values: Values): string {
    ReplaceAll(s, Placeholder(key), ValueOf(values, key))
  }

  lemma PrependNothing(r: Result<string>)
    ensures Prepend("", r) == r
  {
    if r.Ok? {
      assert "" + r.value == r.value;
    }
  }

  lemma PrependTwice(a: string, b: string, r: Result<string>)
    ensures Prepend(a, Prepend(b, r)) == Prepend(a + b, r)
  {
    if r.Ok? {
      assert a + (b + r.value) == (a + b) + r.value;
    }
  }

  /** No placeholder begins at an ordinary character. */
  lemma OrdinaryBegins(s: string, keys: seq<string>)
    requires s != "" && s[0] != '{'
    ensures KeyAt(s, keys).None? && forall key :: !(Placeholder(key) <= s)
  {
    KeyAtFinds(s, keys);
    forall key ensures !(Placeholder(key) <= s) {
      assert Placeholder(key)[0] == '{';
    }
  }

  lemma {:induction false} FillLiteral(lit: string, rest: string, keys: seq<string>, values: Values)
    requires BraceFree(lit)
    ensures FillOnce(lit + rest, keys, values) == Prepend(lit, FillOnce(rest, keys, values))
  {
    if lit == "" {
      assert lit + rest == rest;
      PrependNothing(FillOnce(rest, keys, values));
    } else {
      var s := lit + rest;
      OrdinaryBegins(s, keys);
      assert s[1..] == lit[1..] + rest;
      FillLiteral(lit[1..], rest, keys, values);
      PrependTwice([lit[0]], lit[1..], FillOnce(rest, keys, values));
      assert [lit[0]] + lit[1..] == lit;
    }
  }

  lemma FillHole(key: string, rest: string, keys: seq<string>, values: Values)
    requires Names(keys) && key in keys
    ensures FillOnce(Placeholder(key) + rest, keys, values)
         == if Blank(values, key) then Err(MissingValue(key)) else Prepend(ValueOf(values, key), FillOnce(rest, keys, values))
  {
    KeyAtIs(Placeholder(key) + rest, keys, key);
    assert After(Placeholder(key) + rest, key) == rest;
  }

  /** A brace that begins no placeholder is an error. */
  lemma FillStray(s: string, keys: seq<string>, values: Values)
    requires s != "" && (s[0] == '{' || s[0] == '}') && forall i :: 0 <= i < |keys| ==> !(Placeholder(keys[i]) <= s)
    ensures FillOnce(s, keys, values) == Err(UnknownPlaceholder)
  {
    KeyAtFinds(s, keys);
  }

  /** What one scan makes of a flat text does not change when one key's placeholders are replaced
      first by a brace-free value; the text stays flat and loses just that key's placeholders. */
  lemma {:induction false} PutKeepsFilling(s: string, key: string, keys: seq<string>, values: Values)
    requires Names(keys) && key in keys && Flat(s)
    requires BraceFree(ValueOf(values, key)) && !Blank(values, key)
    ensures Flat(Put(s, key, values))
    ensures FillOnce(Put(s, key, values), keys, values) == FillOnce(s, keys, values)
    ensures forall other :: other in keys ==>
              (Contains(Put(s, key, values), Placeholder(other)) <==> other != key && Contains(s, Placeholder(other)))
    decreases |s|
  {
    if s != "" {
      KeyAtFinds(s, keys);
      match KeyAt(s, keys)
      case Some(found) => PutAtHole(s, found, key, keys, values);
      case None => PutAtChar(s, key, keys, values);
    }
  }

  lemma {:induction false} PutAtHole(s: string, found: string, key: string, keys: seq<string>, values: Values)
    requires Names(keys) && key in keys && found in keys && Flat(s)
    requires BraceFree(ValueOf(values, key)) && !Blank(values, key)
    requires Placeholder(found) <= s && s == Placeholder(found) + After(s, found)
    ensures Flat(Put(s, key, values))
    ensures FillOnce(Put(s, key, values), keys, values) == FillOnce(s, keys, values)
    ensures forall other :: other in keys ==>
              (Contains(Put(s, key, values), Placeholder(other)) <==> other != key && Contains(s, Placeholder(other)))
    decreases |s|, 0
  {
    var rest, v := After(s, found), ValueOf(values, key);
    FlatAfterHole(found, rest);
    PutKeepsFilling(rest, key, keys, values);
    ReplaceHole(found, rest, key, v);
    FillHole(found, rest, keys, values);
    var r := Put(rest, key, values);
    if found == key {
      FlatThrough(v, r);
      FillLiteral(v, r, keys, values);
    } else {
      FlatAfterHole(found, r);
      FillHole(found, r, keys, values);
    }
    forall other | other in keys
      ensures Contains(Put(s, key, values), Placeholder(other)) <==> other != key && Contains(s, Placeholder(other))
    {
      ReplaceHole(found, rest, other, "");
      if found == key {
        ReplaceSkips(v, r, other, "");
      } else {
        ReplaceHole(found, r, other, "");
      }
    }
  }

  lemma {:induction false} PutAtChar(s: string, key: string, keys: seq<string>, values: Values)
    requires Names(keys) && key in keys && Flat(s) && s != ""
    requires BraceFree(ValueOf(values, key)) && !Blank(values, key)
    requires KeyAt(s, keys).None? && forall i :: 0 <= i < |keys| ==> !(Placeholder(keys[i]) <= s)
    ensures Flat(Put(s, key, values))
    ensures FillOnce(Put(s, key, values), keys, values) == FillOnce(s, keys, values)
    ensures forall other :: other in keys ==>
              (Contains(Put(s, key, values), Placeholder(other)) <==> other != key && Contains(s, Placeholder(other)))
    decreases |s|, 0
  {
    var rest, v := s[1..], ValueOf(values, key);
    var r := Put(rest, key, values);
    var t := [s[0]] + r;
    assert Put(s, key, values) == t && t[1..] == r;
    if s[0] == '{' {
      InsideIsFlat(rest);
    }
    PutKeepsFilling(rest, key, keys, values);
    forall i | 0 <= i < |keys| ensures !(Placeholder(keys[i]) <= t) {
      if s[0] == '{' {
        OpeningIsKept(s, key, v, keys[i]);
      } else {
        OrdinaryBegins(t, keys);
      }
    }
    KeyAtFinds(t, keys);
    if s[0] == '{' {
      InsideStaysFlat(rest, key, keys, values);
    }
  }

  lemma {:induction false} InsideStaysFlat(s: string, key: string, keys: seq<string>, values: Values)
    requires Names(keys) && key in keys && FlatInside(s)
    requires BraceFree(ValueOf(values, key)) && !Blank(values, key)
    ensures FlatInside(Put(s, key, values))
    decreases |s|
  {
    if s != "" {
      assert Put(s, key, values) == [s[0]] + Put(s[1..], key, values);
      if s[0] == '}' {
        PutKeepsFilling(s[1..], key, keys, values);
      } else {
        InsideStaysFlat(s[1..], key, keys, values);
      }
    }
  }

  // ---------- all keys, one after another ----------

  lemma KeysAreNames()
    ensures Names(KEYS)
    ensures forall i, j :: 0 <= i < j < |KEYS| ==> KEYS[i] != KEYS[j]
  {
  }

  /** The values the item uses hold no brace. */
  predicate UsedValuesAreBraceFree(item: string, values: Values) {
    forall k :: 0 <= k < |KEYS| && Contains(item, Placeholder(KEYS[k])) ==> BraceFree(ValueOf(values, KEYS[k]))
  }

  /** One of the first `n` keys is used and has a blank value. */
  predicate LacksValue(item: string, values: Values, n: nat)
    requires n <= |KEYS|
  {
    exists k :: 0 <= k < n && Contains(item, Placeholder(KEYS[k])) && Blank(values, KEYS[k])
  }

  /** What is left after the first `n` keys: the same filling, and the placeholders of the other keys. */
  predicate Leaves(item: string, text: string, values: Values, n: nat)
    requires n <= |KEYS|
  {
    && Flat(text) && FillOnce(text, KEYS, values) == FillOnce(item, KEYS, values)
    && forall k :: 0 <= k < |KEYS| ==>
         (Contains(text, Placeholder(KEYS[k])) <==> k >= n && Contains(item, Placeholder(KEYS[k])))
  }

  lemma KeyIsPut(item: string, text: string, values: Values, n: nat)
    requires n < |KEYS| && Leaves(item, text, values, n) && UsedValuesAreBraceFree(item, values)
    requires Contains(item, Placeholder(KEYS[n])) && !Blank(values, KEYS[n])
    ensures Leaves(item, Put(text, KEYS[n], values), values, n + 1)
  {
    KeysAreNames();
    PutKeepsFilling(text, KEYS[n], KEYS, values);
  }

  lemma {:induction false} KeysAreReplaced(item: string, values: Values, n: nat)
    requires n <= |KEYS| && Flat(item) && UsedValuesAreBraceFree(item, values)
    ensures if LacksValue(item, values, n) then Replaced(item, values, n).Err?
            else Replaced(item, values, n).Ok? && Leaves(item, Replaced(item, values, n).value, values, n)
  {
    if n > 0 {
      KeysAreReplaced(item, values, n - 1);
      var key := KEYS[n - 1];
      assert LacksValue(item, values, n) <==>
             LacksValue(item, values, n - 1) || (Contains(item, Placeholder(key)) && Blank(values, key));
      if !LacksValue(item, values, n - 1) {
        var text := Replaced(item, values, n - 1).value;
        assert Contains(text, Placeholder(key)) <==> Contains(item, Placeholder(key));
        if Contains(item, Placeholder(key)) && !Blank(values, key) {
          KeyIsPut(item, text, values, n - 1);
        }
      }
    }
  }

  lemma BraceFreeFillsItself(s: string, keys: seq<string>, values: Values)
    requires BraceFree(s)
    ensures FillOnce(s, keys, values) == Ok(s)
  {
    FillLiteral(s, "", keys, values);
    assert s + "" == s;
  }

  /** A filling that succeeds leaves no stray brace: a text without placeholders has none at all. */
  lemma {:induction false} FillingAcceptsNoStray(s: string, keys: seq<string>, values: Values)
    requires Names(keys) && FillOnce(s, keys, values).Ok?
    requires forall key :: key in keys ==> !Contains(s, Placeholder(key))
    ensures BraceFree(s)
  {
    if s != "" {
      KeyAtFinds(s, keys);
      FillingAcceptsNoStray(s[1..], keys, values);
      assert s == [s[0]] + s[1..];
    }
  }

  /** A filling that succeeds is of a flat text, in which every used value is present, and not blank. */
  lemma {:induction false} FillingShowsValues(s: string, keys: seq<string>, values: Values)
    requires Names(keys) && FillOnce(s, keys, values).Ok?
    ensures Flat(s)
    ensures forall key :: key in keys && Contains(s, Placeholder(key)) ==>
              !Blank(values, key) && (BraceFree(FillOnce(s, keys, values).value) ==> BraceFree(ValueOf(values, key)))
    decreases |s|
  {
    if s != "" {
      KeyAtFinds(s, keys);
      match KeyAt(s, keys)
      case Some(found) => ShowsAtHole(s, found, keys, values);
      case None =>
        FillingShowsValues(s[1..], keys, values);
        assert forall key :: !(Placeholder(key) <= s) by {
          OrdinaryBegins(s, keys);
        }
        assert forall c :: c in FillOnce(s[1..], keys, values).value ==> c in FillOnce(s, keys, values).value;
    }
  }

  lemma {:induction false} ShowsAtHole(s: string, found: string, keys: seq<string>, values: Values)
    requires Names(keys) && FillOnce(s, keys, values).Ok? && found in keys
    requires Placeholder(found) <= s && s == Placeholder(found) + After(s, found)
    ensures Flat(s)
    ensures forall key :: key in keys && Contains(s, Placeholder(key)) ==>
              !Blank(values, key) && (BraceFree(FillOnce(s, keys, values).value) ==> BraceFree(ValueOf(values, key)))
    decreases |s|, 0
  {
    var rest := After(s, found);
    FillHole(found, rest, keys, values);
    FillingShowsValues(rest, keys, values);
    FlatAfterHole(found, rest);
    var tail := FillOnce(rest, keys, values).value;
    assert FillOnce(s, keys, values).value == ValueOf(values, found) + tail;
    assert forall c :: c in tail || c in ValueOf(values, found) ==> c in FillOnce(s, keys, values).value;
    forall key | key in keys && Contains(s, Placeholder(key))
      ensures key == found || Contains(rest, Placeholder(key))
    {
      ReplaceHole(found, rest, key, "");
    }
  }

  // ---------- the comparison ----------

  /** Where one scan fills the item, replacing key after key gives the same exactly when no value
      that the item uses holds a brace. */
  lemma SequentialIsFillingExactly(item: string, values: Values)
    requires FillOnce(item, KEYS, values).Ok?
    ensures Expanded(item, values) == FillOnce(item, KEYS, values) <==> UsedValuesAreBraceFree(item, values)
  {
    KeysAreNames();
    FillingShowsValues(item, KEYS, values);
    if UsedValuesAreBraceFree(item, values) {
      KeysAreReplaced(item, values, |KEYS|);
      var text := Replaced(item, values, |KEYS|).value;
      FillingAcceptsNoStray(text, KEYS, values);
      BraceFreeFillsItself(text, KEYS, values);
    }
  }

  /** Where no brace of the item lies inside another and no used value holds one, the two agree:
      they give the same text, or both fail. */
  lemma SequentialIsFilling(item: string, values: Values)
    requires Flat(item) && UsedValuesAreBraceFree(item, values)
    ensures FillOnce(item, KEYS, values).Ok? <==> Expanded(item, values).Ok?
    ensures Expanded(item, values).Ok? ==> Expanded(item, values) == FillOnce(item, KEYS, values)
  {
    if FillOnce(item, KEYS, values).Ok? {
      SequentialIsFillingExactly(item, values);
    } else if Expanded(item, values).Ok? {
      KeysAreReplaced(item, values, |KEYS|);
      BraceFreeFillsItself(Expanded(item, values).value, KEYS, values);
    }
  }

  /** A placeholder outlives the replacement of other keys, whatever is put in their place. */
  lemma {:induction false} PlaceholderOutlives(s: string, name: string, key: string, with: string)
    requires BraceFree(name) && BraceFree(key) && name != key && Contains(s, Placeholder(name))
    ensures Contains(ReplaceAll(s, Placeholder(key), with), Placeholder(name))
    decreases |s|
  {
    if Placeholder(name) <= s {
      assert s == Placeholder(name) + After(s, name);
      ReplaceHole(name, After(s, name), key, with);
    } else if Placeholder(key) <= s {
      assert s == Placeholder(key) + After(s, key);
      ReplaceHole(key, After(s, key), name, "");
      PlaceholderOutlives(After(s, key), name, key, with);
      ContainsFurther(with, ReplaceAll(After(s, key), Placeholder(key), with), Placeholder(name));
    } else {
      PlaceholderOutlives(s[1..], name, key, with);
      ContainsFurther([s[0]], ReplaceAll(s[1..], Placeholder(key), with), Placeholder(name));
    }
  }

  lemma {:induction false} ContainsFurther(front: string, s: string, pattern: string)
    requires Contains(s, pattern)
    ensures Contains(front + s, pattern)
  {
    if front == "" {
      assert front + s == s;
    } else {
      ContainsFurther(front[1..], s, pattern);
      assert (front + s)[1..] == front[1..] + s;
    }
  }

  lemma {:induction false} ContainsBrace(s: string, key: string)
    requires Contains(s, Placeholder(key))
    ensures !BraceFree(s)
  {
    if Placeholder(key) <= s {
      assert s[0] == '{';
    } else {
      ContainsBrace(s[1..], key);
      assert s == [s[0]] + s[1..];
    }
  }

  lemma {:induction false} PlaceholderStays(item: string, name: string, values: Values, n: nat)
    requires n <= |KEYS| && BraceFree(name) && Contains(item, Placeholder(name))
    requires name !in KEYS[..n] || Blank(values, name)
    ensures Replaced(item, values, n).Err?
            || (name !in KEYS[..n] && Contains(Replaced(item, values, n).value, Placeholder(name)))
  {
    if n > 0 {
      assert KEYS[..n] == KEYS[..n - 1] + [KEYS[n - 1]];
      PlaceholderStays(item, name, values, n - 1);
      if Replaced(item, values, n - 1).Ok? && KEYS[n - 1] != name {
        KeysAreNames();
        PlaceholderOutlives(Replaced(item, values, n - 1).value, name, KEYS[n - 1], ValueOf(values, KEYS[n - 1]));
      }
    }
  }

  /** An item with a placeholder of an unknown name or a blank value fails for all values. */
  lemma UnfillableFails(item: string, name: string, values: Values)
    requires BraceFree(name) && Contains(item, Placeholder(name)) && (name !in KEYS || Blank(values, name))
    ensures Expanded(item, values).Err?
  {
    assert KEYS[..|KEYS|] == KEYS;
    PlaceholderStays(item, name, values, |KEYS|);
    if Replaced(item, values, |KEYS|).Ok? {
      ContainsBrace(Replaced(item, values, |KEYS|).value, name);
    }
  }
}
