/** Expanding a configured adapter command: placeholders replaced one key after another. */
module AdapterCommand {
  import opened Text

  // ---------- replacing text ----------

  predicate Contains(s: string, pattern: string) {
    pattern <= s || (s != "" && Contains(s[1..], pattern))
  }

  /** Every non-overlapping occurrence from the left replaced. */
  function ReplaceAll(s: string, pattern: string, with: string): string
    requires pattern != ""
  {
    if s == "" then ""
    else if pattern <= s then with + ReplaceAll(s[|pattern|..], pattern, with)
    else [s[0]] + ReplaceAll(s[1..], pattern, with)
  }

  predicate BraceFree(s: string) {
    '{' !in s && '}' !in s
  }

  // ---------- the command ----------

  const KEYS := ["id", "name", "target"]

  type Values = map<string, string>

  function ValueOf(values: Values, key: string): string {
    if key in values then values[key] else ""
  }

  datatype CommandError = MissingValue(key: string) | UnknownPlaceholder | ArgsRefused | NotAbsolute

  datatype Result<T> = Ok(value: T) | Err(error: CommandError)

  function Placeholder(key: string): string {
    "{" + key + "}"
  }

  /** One key's placeholders replaced, if there are any. */
  function ReplacedKey(text: string, values: Values, key: string): Result<string> {
    if !Contains(text, Placeholder(key)) then Ok(text)
    else if TrimSpace(ValueOf(values, key)) == "" then Err(MissingValue(key))
    else Ok(ReplaceAll(text, Placeholder(key), ValueOf(values, key)))
  }

  /** One template item after the first `n` keys were replaced. */
  function Replaced(item: string, values: Values, n: nat): Result<string>
    requires n <= |KEYS|
  {
    if n == 0 then Ok(item)
    else
      var before := Replaced(item, values, n - 1);
      if before.Err? then before else ReplacedKey(before.value, values, KEYS[n - 1])
  }

  function Expanded(item: string, values: Values): Result<string> {
    var done := Replaced(item, values, |KEYS|);
    if done.Ok? && !BraceFree(done.value) then Err(UnknownPlaceholder) else done
  }

  /** What one template item contributes: the arguments, or its expansion. */
  datatype Part = Splice | Text(expansion: Result<string>)

  function PartOf(item: string, values: Values): Part {
    if item == "{args}" then Splice else Text(Expanded(item, values))
  }

  function Parts(template: seq<string>, values: Values): (parts: seq<Part>)
    ensures |parts| == |template|
  {
    seq(|template|, i requires 0 <= i < |template| => PartOf(template[i], values))
  }

  /** The argument vector of the first `n` parts. */
  function ArgvOf(parts: seq<Part>, args: seq<string>, n: nat): Result<seq<string>>
    requires n <= |parts|
  {
    if n == 0 then Ok([])
    else
      var before := ArgvOf(parts, args, n - 1);
      if before.Err? then before
      else
        match parts[n - 1]
        case Splice => Ok(before.value + args)
        case Text(Ok(text)) => Ok(before.value + [text])
        case Text(Err(error)) => Err(error)
  }

  predicate Absolute(path: string) {
    path != "" && path[0] == '/'
  }

  function CommandOf(template: seq<string>, values: Values, args: seq<string>): Result<seq<string>> {
    var argv := ArgvOf(Parts(template, values), args, |template|);
    if argv.Err? then argv
    else if args != [] && "{args}" !in template then Err(ArgsRefused)
    else if argv.value == [] || !Absolute(argv.value[0]) then Err(NotAbsolute)
    else argv
  }

  /** One template item, key by key. */
  method ExpandItem(item: string, values: Values) returns (result: Result<string>)
    ensures result == Expanded(item, values)
  {
    var text := item;
    var k := 0;
    while k < |KEYS|
      invariant k <= |KEYS|
      invariant Replaced(item, values, k) == Ok(text)
    {
      var key := KEYS[k];
      if Contains(text, Placeholder(key)) {
        if TrimSpace(ValueOf(values, key)) == "" {
          ErrorsLast(item, values, k + 1);
          return Err(MissingValue(key));
        }
        text := ReplaceAll(text, Placeholder(key), ValueOf(values, key));
      }
      k := k + 1;
    }
    if '{' in text || '}' in text {
      return Err(UnknownPlaceholder);
    }
    result := Ok(text);
  }

  /** The argument vector of a configured action, item by item. */
  method Command(template: seq<string>, values: Values, args: seq<string>) returns (result: Result<seq<string>>)
    ensures result == CommandOf(template, values, args)
  {
    ghost var parts := Parts(template, values);
    var argv := [];
    var usesArgs := false;
    var i := 0;
    while i < |template|
      invariant i <= |template|
      invariant ArgvOf(parts, args, i) == Ok(argv)
      invariant usesArgs <==> "{args}" in template[..i]
    {
      var item := template[i];
      if item == "{args}" {
        usesArgs := true;
        argv := argv + args;
      } else {
        var expanded := ExpandItem(item, values);
        if expanded.Err? {
          ErrorsStop(parts, args, i + 1);
          return Err(expanded.error);
        }
        argv := argv + [expanded.value];
      }
      i := i + 1;
    }
    assert template[..i] == template;
    if args != [] && !usesArgs {
      return Err(ArgsRefused);
    }
    if argv == [] || !Absolute(argv[0]) {
      return Err(NotAbsolute);
    }
    result := Ok(argv);
  }

  lemma {:induction false} ErrorsLast(item: string, values: Values, n: nat)
    requires n <= |KEYS| && Replaced(item, values, n).Err?
    ensures Replaced(item, values, |KEYS|) == Replaced(item, values, n)
    decreases |KEYS| - n
  {
    if n < |KEYS| {
      ErrorsLast(item, values, n + 1);
    }
  }

  lemma {:induction false} ErrorsStop(parts: seq<Part>, args: seq<string>, n: nat)
    requires n <= |parts| && ArgvOf(parts, args, n).Err?
    ensures ArgvOf(parts, args, |parts|) == ArgvOf(parts, args, n)
    decreases |parts| - n
  {
    if n < |parts| {
      ErrorsStop(parts, args, n + 1);
    }
  }

  /** How many of the first `n` items are the place of the arguments. */
  function Splices(template: seq<string>, n: nat): nat
    requires n <= |template|
  {
    if n == 0 then 0 else Splices(template, n - 1) + if template[n - 1] == "{args}" then 1 else 0
  }

  lemma OneMoreTimes(k: nat, a: nat)
    ensures (k + 1) * a == k * a + a
  {
  }

  /** Every item but `{args}` gives exactly one entry, whatever the template and the values contain. */
  lemma {:induction false} OneEntryPerItem(template: seq<string>, values: Values, args: seq<string>, n: nat)
    requires n <= |template| && ArgvOf(Parts(template, values), args, n).Ok?
    ensures Splices(template, n) <= n
    ensures |ArgvOf(Parts(template, values), args, n).value|
         == n - Splices(template, n) + Splices(template, n) * |args|
  {
    if n > 0 {
      OneEntryPerItem(template, values, args, n - 1);
      OneMoreTimes(Splices(template, n - 1), |args|);
    }
  }
}
