/** What a command template means, and where replacing key after key departs from it. */
module AdapterTemplates {
  import opened Text
  import opened AdapterCommand
  import opened AdapterFilling

  // ---------- one item ----------

  /** A template item as it is meant: literal text and named holes. */
  datatype Token = Lit(text: string) | Hole(name: string)

  predicate Plain(t: Token) {
    match t
    case Lit(text) => BraceFree(text)
    case Hole(name) => BraceFree(name)
  }

  predicate AllPlain(ts: seq<Token>) {
    forall i :: 0 <= i < |ts| ==> Plain(ts[i])
  }

  function Written(t: Token): string {
    match t
    case Lit(text) => text
    case Hole(name) => Placeholder(name)
  }

  function Render(ts: seq<Token>): string {
    if ts == [] then "" else Written(ts[0]) + Render(ts[1..])
  }

  /** All holes filled at once. */
  function Filled(t: Token, values: Values): string {
    match t
    case Lit(text) => text
    case Hole(name) => ValueOf(values, name)
  }

  function Substituted(ts: seq<Token>, values: Values): string {
    if ts == [] then "" else Filled(ts[0], values) + Substituted(ts[1..], values)
  }

  /** The token needs no value, or has one of the three names and a value that is not blank. */
  predicate CanFill(t: Token, values: Values) {
    t.Hole? ==> t.name in KEYS && !Blank(values, t.name)
  }

  lemma CanFillMeans(t: Token, values: Values)
    ensures CanFill(t, values) <==>
      (t.Hole? ==>
         && t.name in {"id", "name", "target"} && t.name in values
         && exists i :: 0 <= i < |values[t.name]| && !IsWhite(values[t.name][i]))
  {
    if t.Hole? {
      assert t.name in KEYS <==> t.name in {"id", "name", "target"} by {
        assert KEYS[0] == "id" && KEYS[1] == "name" && KEYS[2] == "target";
      }
      BlankIsWhite(ValueOf(values, t.name));
    }
  }

  predicate Fillable(ts: seq<Token>, values: Values) {
    forall i :: 0 <= i < |ts| ==> CanFill(ts[i], values)
  }

  /** The values that the holes name hold no brace. */
  predicate HoleValuesAreBraceFree(ts: seq<Token>, values: Values) {
    forall i :: 0 <= i < |ts| && ts[i].Hole? ==> BraceFree(ValueOf(values, ts[i].name))
  }

  /** One scan of the written item is what filling all its holes means. */
  lemma {:induction false} FillingIsSubstitution(ts: seq<Token>, values: Values)
    requires AllPlain(ts) && Fillable(ts, values)
    ensures FillOnce(Render(ts), KEYS, values) == Ok(Substituted(ts, values))
  {
    if ts != [] {
      KeysAreNames();
      assert Plain(ts[0]) && CanFill(ts[0], values);
      FillingIsSubstitution(ts[1..], values);
      match ts[0] {
        case Lit(text) => FillLiteral(text, Render(ts[1..]), KEYS, values);
        case Hole(name) => FillHole(name, Render(ts[1..]), KEYS, values);
      }
    }
  }

  lemma {:induction false} HolesAreContained(ts: seq<Token>, key: string)
    requires AllPlain(ts) && BraceFree(key)
    ensures Contains(Render(ts), Placeholder(key)) <==> Hole(key) in ts
  {
    if ts != [] {
      HolesAreContained(ts[1..], key);
      assert Hole(key) in ts <==> ts[0] == Hole(key) || Hole(key) in ts[1..];
      assert Plain(ts[0]);
      match ts[0] {
        case Lit(text) => ReplaceSkips(text, Render(ts[1..]), key, "");
        case Hole(name) => ReplaceHole(name, Render(ts[1..]), key, "");
      }
    }
  }

  lemma UsedValuesAreHoleValues(ts: seq<Token>, values: Values)
    requires AllPlain(ts) && Fillable(ts, values)
    ensures UsedValuesAreBraceFree(Render(ts), values) <==> HoleValuesAreBraceFree(ts, values)
  {
    KeysAreNames();
    forall k | 0 <= k < |KEYS| ensures Contains(Render(ts), Placeholder(KEYS[k])) <==> Hole(KEYS[k]) in ts {
      HolesAreContained(ts, KEYS[k]);
    }
    forall i | 0 <= i < |ts| && ts[i].Hole? ensures exists k :: 0 <= k < |KEYS| && KEYS[k] == ts[i].name && Hole(KEYS[k]) in ts {
      assert CanFill(ts[i], values);
      var k :| 0 <= k < |KEYS| && KEYS[k] == ts[i].name;
      assert ts[i] == Hole(KEYS[k]);
    }
  }

  /** It failed for a key without a value, or for a placeholder with another name. */
  predicate Unfilled<T>(result: Result<T>, values: Values) {
    && result.Err?
    && match result.error
       case MissingValue(key) => key in {"id", "name", "target"} && Blank(values, key)
       case UnknownPlaceholder => true
       case _ => false
  }

  /** Replacing fails only for a key without a value; a brace left over is found in the end. */
  lemma {:induction false} FailsForKey(item: string, values: Values, n: nat)
    requires n <= |KEYS| && Replaced(item, values, n).Err?
    ensures Replaced(item, values, n).error.MissingValue?
    ensures var key := Replaced(item, values, n).error.key; key in {"id", "name", "target"} && Blank(values, key)
  {
    assert KEYS[0] == "id" && KEYS[1] == "name" && KEYS[2] == "target";
    if Replaced(item, values, n - 1).Err? {
      FailsForKey(item, values, n - 1);
    }
  }

  /** An item whose holes can be filled expands to what it means exactly when no value it uses holds a
      brace; any other item fails, whatever the values. */
  lemma SequentialIsSimultaneous(ts: seq<Token>, values: Values)
    requires AllPlain(ts)
    ensures Fillable(ts, values) ==>
              (Expanded(Render(ts), values) == Ok(Substituted(ts, values)) <==> HoleValuesAreBraceFree(ts, values))
    ensures !Fillable(ts, values) ==> Unfilled(Expanded(Render(ts), values), values)
  {
    if Replaced(Render(ts), values, |KEYS|).Err? {
      FailsForKey(Render(ts), values, |KEYS|);
    }
    if Fillable(ts, values) {
      FillingIsSubstitution(ts, values);
      UsedValuesAreHoleValues(ts, values);
      SequentialIsFillingExactly(Render(ts), values);
    } else {
      var i :| 0 <= i < |ts| && !CanFill(ts[i], values);
      assert Plain(ts[i]) && ts[i] == Hole(ts[i].name) && Hole(ts[i].name) in ts;
      HolesAreContained(ts, ts[i].name);
      UnfillableFails(Render(ts), ts[i].name, values);
    }
  }

  // ---------- whole templates ----------

  /** A template item as it is meant: the place of the arguments, or one entry. */
  datatype Item = Args | Entry(tokens: seq<Token>)

  predicate Proper(item: Item) {
    item.Entry? ==> AllPlain(item.tokens) && Render(item.tokens) != "{args}"
  }

  function ItemText(item: Item): string {
    match item
    case Args => "{args}"
    case Entry(ts) => Render(ts)
  }

  function Template(items: seq<Item>): seq<string> {
    seq(|items|, i requires 0 <= i < |items| => ItemText(items[i]))
  }

  /** The argument vector meant by the first `n` items: the arguments spliced in, one entry for each
      other item. */
  function Meant(items: seq<Item>, values: Values, args: seq<string>, n: nat): seq<string>
    requires n <= |items|
  {
    if n == 0 then []
    else
      Meant(items, values, args, n - 1)
      + match items[n - 1]
        case Args => args
        case Entry(ts) => [Substituted(ts, values)]
  }

  predicate Expandable(item: Item, values: Values) {
    item.Args? || Fillable(item.tokens, values)
  }

  predicate AllExpandable(items: seq<Item>, values: Values, n: nat)
    requires n <= |items|
  {
    forall i {:trigger Expandable(items[i], values)} :: 0 <= i < n ==> Expandable(items[i], values)
  }

  /** The part fails exactly if its item cannot be filled, and is otherwise what the item means. */
  predicate Meets(item: Item, values: Values, part: Part) {
    match item
    case Args => part.Splice?
    case Entry(ts) =>
      part.Text? && if Fillable(ts, values) then part.expansion == Ok(Substituted(ts, values)) else Unfilled(part.expansion, values)
  }

  lemma ItemMeets(item: Item, values: Values)
    requires Proper(item) && (item.Entry? && Fillable(item.tokens, values) ==> HoleValuesAreBraceFree(item.tokens, values))
    ensures Meets(item, values, PartOf(ItemText(item), values))
  {
    if item.Entry? {
      SequentialIsSimultaneous(item.tokens, values);
    }
  }

  lemma {:induction false} ArgvIsMeant(items: seq<Item>, parts: seq<Part>, values: Values, args: seq<string>, n: nat)
    requires n <= |items| == |parts|
    requires forall i {:trigger parts[i]} :: 0 <= i < |items| ==> Meets(items[i], values, parts[i])
    ensures if AllExpandable(items, values, n) then ArgvOf(parts, args, n) == Ok(Meant(items, values, args, n))
            else Unfilled(ArgvOf(parts, args, n), values)
  {
    if n > 0 {
      ArgvIsMeant(items, parts, values, args, n - 1);
      assert Meets(items[n - 1], values, parts[n - 1]);
      assert AllExpandable(items, values, n) <==> AllExpandable(items, values, n - 1) && Expandable(items[n - 1], values);
    }
  }

  lemma ArgsAreSpliced(items: seq<Item>)
    requires forall i :: 0 <= i < |items| ==> Proper(items[i])
    ensures "{args}" in Template(items) <==> Args in items
  {
    forall i | 0 <= i < |items| ensures Template(items)[i] == "{args}" <==> items[i] == Args {
      assert Proper(items[i]);
    }
    if Args in items {
      var i :| 0 <= i < |items| && items[i] == Args;
      assert Template(items)[i] == "{args}";
    }
  }

  /** The values that some fillable item uses hold no brace. */
  predicate UsedValuesArePlain(items: seq<Item>, values: Values) {
    forall i :: 0 <= i < |items| && items[i].Entry? && Fillable(items[i].tokens, values) ==>
      HoleValuesAreBraceFree(items[i].tokens, values)
  }

  /** A command whose used values hold no brace expands to what its template means, and fails exactly
      when a used value is blank or a hole unknown, arguments go unused, or the result does not begin
      with an absolute path. */
  lemma CommandIsMeant(items: seq<Item>, values: Values, args: seq<string>)
    requires UsedValuesArePlain(items, values) && forall i :: 0 <= i < |items| ==> Proper(items[i])
    ensures var argv := Meant(items, values, args, |items|);
      var result := CommandOf(Template(items), values, args);
      if !AllExpandable(items, values, |items|) then Unfilled(result, values)
      else if args != [] && Args !in items then result == Err(ArgsRefused)
      else if argv == [] || !("/" <= argv[0]) then result == Err(NotAbsolute)
      else result == Ok(argv)
  {
    var parts := Parts(Template(items), values);
    forall i {:trigger parts[i]} | 0 <= i < |items| ensures Meets(items[i], values, parts[i]) {
      assert Template(items)[i] == ItemText(items[i]);
      ItemMeets(items[i], values);
    }
    ArgvIsMeant(items, parts, values, args, |items|);
    ArgsAreSpliced(items);
  }

  /** An item that cannot be filled fails its command for all values, braces in them or not. */
  lemma UnfillableItemFailsCommand(items: seq<Item>, values: Values, args: seq<string>, i: nat)
    requires i < |items| && Proper(items[i]) && !Expandable(items[i], values)
    ensures CommandOf(Template(items), values, args).Err?
  {
    var parts := Parts(Template(items), values);
    SequentialIsSimultaneous(items[i].tokens, values);
    assert parts[i] == PartOf(ItemText(items[i]), values);
    assert ArgvOf(parts, args, i + 1).Err?;
    ErrorsStop(parts, args, i + 1);
  }

  // ---------- where the two part ----------

  /** A brace inside a brace: one scan rejects the item, but replacing the inner placeholder completes
      a later key's, which is then replaced too. */
  lemma NestedHoleIsExpanded()
    ensures var values := map["id" := "me", "name" := "x"];
      && !Flat("{na{id}}")
      && FillOnce("{na{id}}", KEYS, values) == Err(UnknownPlaceholder)
      && Expanded("{na{id}}", values) == Ok("x")
  {
    var values := map["id" := "me", "name" := "x"];
    NestedHoleIsRejected(values);
    FirstKeyFillsInner(values);
    LastTwoKeys("{na{id}}", values);
  }

  lemma FirstKeyFillsInner(values: Values)
    requires ValueOf(values, "id") == "me"
    ensures Replaced("{na{id}}", values, 1) == Ok("{name}")
  {
    InnerHoleFirst();
    BlankIsWhite("me");
    assert !IsWhite("me"[0]);
    assert Placeholder("id") == "{id}" && KEYS[0] == "id";
    assert Replaced("{na{id}}", values, 0) == Ok("{na{id}}");
  }

  lemma NestedHoleIsRejected(values: Values)
    ensures !Flat("{na{id}}") && FillOnce("{na{id}}", KEYS, values) == Err(UnknownPlaceholder)
  {
    var s := "{na{id}}";
    assert s[1..] == "na{id}}" && s[1..][1..] == "a{id}}" && s[1..][1..][1..] == "{id}}";
    assert s[1] == 'n' && Placeholder("id")[1] == 'i' && Placeholder("target")[1] == 't';
    assert s[3] == '{' && Placeholder("name")[3] == 'm';
    FillStray(s, KEYS, values);
  }

  /** A brace inside a value: one scan keeps the value, but a placeholder in it is replaced as well. */
  lemma PlaceholderInValueIsExpanded()
    ensures var values := map["id" := "{name}", "name" := "x"];
      && FillOnce("{id}", KEYS, values) == Ok("{name}")
      && Expanded("{id}", values) == Ok("x")
  {
    var values := map["id" := "{name}", "name" := "x"];
    HoleAlone("id", "{name}");
    assert Placeholder("id") == "{id}" == Placeholder("id") + "";
    KeysAreNames();
    FillHole("id", "", KEYS, values);
    assert "{name}" + "" == "{name}";
    assert Replaced("{id}", values, 1) == Ok("{name}");
    LastTwoKeys("{id}", values);
  }

  lemma LastTwoKeys(item: string, values: Values)
    requires Replaced(item, values, 1) == Ok("{name}") && ValueOf(values, "name") == "x"
    ensures Expanded(item, values) == Ok("x")
  {
    HoleAlone("name", "x");
    assert Placeholder("name") == "{name}";
    assert TrimSpace("x") != "";
    assert Replaced(item, values, 2) == Ok("x");
    assert !Contains("x", Placeholder("target"));
  }

  lemma HoleAlone(key: string, with: string)
    requires BraceFree(key)
    ensures ReplaceAll(Placeholder(key), Placeholder(key), with) == with && Contains(Placeholder(key), Placeholder(key))
  {
    ReplaceHole(key, "", key, with);
    assert Placeholder(key) + "" == Placeholder(key);
  }

  lemma InnerHoleFirst()
    ensures ReplaceAll("{na{id}}", "{id}", "me") == "{name}" && Contains("{na{id}}", "{id}")
  {
    var s := "{na{id}}";
    assert s[1..] == "na" + (Placeholder("id") + "}");
    assert !(Placeholder("id") <= s) by {
      assert s[1] != Placeholder("id")[1];
    }
    ReplaceSkips("na", Placeholder("id") + "}", "id", "me");
    ReplaceHole("id", "}", "id", "me");
    assert ReplaceAll("}", Placeholder("id"), "me") == "}";
  }
}
