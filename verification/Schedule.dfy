/**
 Manual schedules as they are stored: JSON objects that every read and every write
 normalises.  What an integer literal in a string means and what the hash of a
 legacy object is are parameters of the model.
 */
module Schedule {
  import opened Basics
  import opened Bytes

  /** What json.loads returns.  A float carries its truncation and its text. */
  datatype Json =
    | Null
    | Bool(b: bool)
    | Int(n: int)
    | Float(truncated: int, text: string)
    | Str(s: string)
    | Arr(items: seq<Json>)
    | Obj(fields: map<string, Json>)

  datatype Error =
    | NotObject
    | BadOwner
    | NonPositiveOwner
    | BadText
    | BadTime
    | UnknownField
    | BadField
    | BadFlag
    | BadFile

  /** A normalised manual schedule. */
  datatype Manual = Manual(
    id: string, text: string, program: bool, singleTime: bool, groupId: int, creatorId: int, time: map<string, Json>)

  datatype Env = Env(
    parseInt: string -> Result<int, ()>,  // int() of a string
    digest: Json -> string,               // the first 20 hexadecimal digits of the hash of an object
    fires: map<string, Json> -> bool)     // whether the cron trigger accepts the time fields

  // ------------------------------------------------------------------- strings

  function Strip(s: string): string {
    if s == "" then ""
    else if IsSpace(s[0]) then Strip(s[1..])
    else if IsSpace(s[|s| - 1]) then Strip(s[..|s| - 1])
    else s
  }

  predicate IdChar(c: char) {
    'A' <= c <= 'Z' || 'a' <= c <= 'z' || '0' <= c <= '9' || c == '_' || c == '-'
  }

  predicate IdOk(s: string) {
    s != "" && forall k :: 0 <= k < |s| ==> IdChar(s[k])
  }

  predicate HexDigit(c: char) {
    '0' <= c <= '9' || 'a' <= c <= 'f'
  }

  ghost predicate EnvOk(env: Env) {
    forall j :: |env.digest(j)| == 20 && forall k :: 0 <= k < 20 ==> HexDigit(env.digest(j)[k])
  }

  function Digits(n: nat): string {
    if n < 10 then [('0' as int + n) as char] else Digits(n / 10) + [('0' as int + n % 10) as char]
  }

  /** The number that a string of digits spells. */
  function Spelled(s: string): int {
    if s == "" then 0 else 10 * Spelled(s[..|s| - 1]) + (s[|s| - 1] as int - '0' as int)
  }

  lemma {:induction false} DigitsSpell(n: nat)
    ensures Spelled(Digits(n)) == n && forall k :: 0 <= k < |Digits(n)| ==> '0' <= Digits(n)[k] <= '9'
    ensures Digits(n) != "" && (n > 0 ==> Digits(n)[0] != '0')
  {
    if n < 10 {
      assert Digits(n)[..0] == "";
    } else {
      DigitsSpell(n / 10);
      assert Digits(n)[..|Digits(n)| - 1] == Digits(n / 10);
    }
  }

  /** str() of a value.  The text of a list or of an object starts with a bracket;
      what follows does not matter here. */
  function Text(j: Json): string {
    match j
    case Null => "None"
    case Bool(b) => if b then "True" else "False"
    case Int(n) => if n < 0 then "-" + Digits(-n) else Digits(n)
    case Float(_, text) => text
    case Str(s) => s
    case Arr(_) => "["
    case Obj(_) => "{"
  }

  // ------------------------------------------------------------- normalisation

  predicate TimeField(k: string) {
    || k == "year" || k == "month" || k == "week" || k == "day_of_week"
    || k == "day" || k == "hour" || k == "minute" || k == "second"
  }

  predicate FieldOk(j: Json) {
    (j.Str? || j.Int? || j.Bool?) && Strip(Text(j)) != ""
  }

  function ToInt(env: Env, j: Json): Result<int, ()> {
    match j
    case Int(n) => Ok(n)
    case Bool(b) => Ok(if b then 1 else 0)
    case Float(t, _) => Ok(t)
    case Str(s) => env.parseInt(s)
    case _ => Err(())
  }

  function IntField(env: Env, fields: map<string, Json>, key: string): Result<int, ()> {
    if key in fields then ToInt(env, fields[key]) else Err(())
  }

  function Flag(fields: map<string, Json>, key: string): Result<bool, ()> {
    if key !in fields then Ok(false) else if fields[key].Bool? then Ok(fields[key].b) else Err(())
  }

  /** _manual_schedule_id: the configured id when it is a plain word, else a hash
      of the whole object. */
  function ManualId(env: Env, fields: map<string, Json>): string {
    var configured := Strip(if "id" in fields then Text(fields["id"]) else "");
    if IdOk(configured) then configured else "legacy-" + env.digest(Obj(fields))
  }

  /** normalize_manual_schedule. */
  function Normalize(env: Env, item: Json): Result<Manual, Error> {
    if !item.Obj? then Err(NotObject) else
    var fields := item.fields;
    var group, creator := IntField(env, fields, "group_id"), IntField(env, fields, "creator_id");
    if group.Err? || creator.Err? then Err(BadOwner) else
    if group.value <= 0 || creator.value <= 0 then Err(NonPositiveOwner) else
    if "text" !in fields || !fields["text"].Str? || Strip(fields["text"].s) == "" then Err(BadText) else
    if "time" !in fields || !fields["time"].Obj? || fields["time"].fields == map[] then Err(BadTime) else
    var time := fields["time"].fields;
    if exists k :: k in time && !TimeField(k) then Err(UnknownField) else
    if exists k :: k in time && !FieldOk(time[k]) then Err(BadField) else
    var program, single := Flag(fields, "program"), Flag(fields, "single_time");
    if program.Err? || single.Err? then Err(BadFlag) else
    Ok(Manual(ManualId(env, fields), fields["text"].s, program.value, single.value, group.value, creator.value, time))
  }

  /** The object that is written for a normalised schedule. */
  function ToJson(m: Manual): Json {
    Obj(map["id" := Str(m.id), "text" := Str(m.text), "program" := Bool(m.program),
            "single_time" := Bool(m.singleTime), "group_id" := Int(m.groupId),
            "creator_id" := Int(m.creatorId), "time" := Obj(m.time)])
  }

  /** What normalisation produces, said without it. */
  predicate Canonical(m: Manual) {
    && IdOk(m.id) && Strip(m.text) != "" && m.groupId > 0 && m.creatorId > 0
    && m.time != map[]
    && (forall k :: k in m.time ==> TimeField(k))
    && (forall k :: k in m.time ==> FieldOk(m.time[k]))
  }

  lemma ManualIdOk(env: Env, fields: map<string, Json>)
    requires EnvOk(env)
    ensures IdOk(ManualId(env, fields))
  {
    var d := env.digest(Obj(fields));
    forall k | 0 <= k < |"legacy-" + d| ensures IdChar(("legacy-" + d)[k]) {
      if k >= 7 { assert HexDigit(d[k - 7]); }
    }
  }

  lemma NormalizeIsCanonical(env: Env, item: Json)
    requires EnvOk(env) && Normalize(env, item).Ok?
    ensures Canonical(Normalize(env, item).value)
  {
    hide Strip, Text, TimeField, FieldOk, Flag, IntField, IdOk, ManualId;
    ManualIdOk(env, item.fields);
  }

  /** The object `fields` spells out the schedule `m`. */
  predicate Spells(fields: map<string, Json>, m: Manual) {
    && "id" in fields && fields["id"] == Str(m.id) && "text" in fields && fields["text"] == Str(m.text)
    && "program" in fields && fields["program"] == Bool(m.program)
    && "single_time" in fields && fields["single_time"] == Bool(m.singleTime)
    && "group_id" in fields && fields["group_id"] == Int(m.groupId)
    && "creator_id" in fields && fields["creator_id"] == Int(m.creatorId)
    && "time" in fields && fields["time"] == Obj(m.time)
  }

  lemma SpelledId(env: Env, fields: map<string, Json>, m: Manual)
    requires IdOk(m.id) && "id" in fields && fields["id"] == Str(m.id)
    ensures ManualId(env, fields) == m.id
  {
  }

  lemma SpelledFixed(env: Env, fields: map<string, Json>, m: Manual)
    requires Canonical(m) && Spells(fields, m)
    ensures Normalize(env, Obj(fields)) == Ok(m)
  {
    hide IdOk, Strip, TimeField, FieldOk, Text;
    SpelledId(env, fields, m);
    hide ManualId;
    assert IntField(env, fields, "group_id") == Ok(m.groupId) && IntField(env, fields, "creator_id") == Ok(m.creatorId);
    hide IntField;
    assert Flag(fields, "program") == Ok(m.program) && Flag(fields, "single_time") == Ok(m.singleTime);
    hide Flag;
  }

  /** A canonical schedule passes through its JSON form unchanged. */
  lemma CanonicalFixed(env: Env, m: Manual)
    requires Canonical(m)
    ensures Normalize(env, ToJson(m)) == Ok(m)
  {
    hide Normalize, Canonical;
    assert Spells(ToJson(m).fields, m);
    SpelledFixed(env, ToJson(m).fields, m);
  }

  /** The results of normalisation are exactly the canonical schedules. */
  lemma CanonicalIff(env: Env, m: Manual)
    requires EnvOk(env)
    ensures Canonical(m) <==> exists item :: Normalize(env, item) == Ok(m)
  {
    if Canonical(m) {
      CanonicalFixed(env, m);
    }
    if item :| Normalize(env, item) == Ok(m) {
      NormalizeIsCanonical(env, item);
    }
  }

  /** Normalising twice is normalising once; in particular the id, hashed or not, stays. */
  lemma Idempotent(env: Env, item: Json)
    requires EnvOk(env) && Normalize(env, item).Ok?
    ensures Normalize(env, ToJson(Normalize(env, item).value)) == Normalize(env, item)
  {
    NormalizeIsCanonical(env, item);
    CanonicalFixed(env, Normalize(env, item).value);
  }

  // -------------------------------------------------------- what becomes of an item

  predicate AllSpace(s: string) {
    forall k :: 0 <= k < |s| ==> IsSpace(s[k])
  }

  /** Stripping takes the white space off both ends and nothing else. */
  lemma {:induction false} StripIs(s: string) returns (a: string, b: string)
    ensures s == a + Strip(s) + b && AllSpace(a) && AllSpace(b)
    ensures Strip(s) != "" ==> !IsSpace(Strip(s)[0]) && !IsSpace(Strip(s)[|Strip(s)| - 1])
    decreases |s|
  {
    a, b := "", "";
    hide IsSpace;
    if s == "" {
    } else if IsSpace(s[0]) {
      a, b := StripIs(s[1..]);
      assert s == [s[0]] + s[1..];
      a := [s[0]] + a;
    } else if IsSpace(s[|s| - 1]) {
      a, b := StripIs(s[..|s| - 1]);
      assert s == s[..|s| - 1] + [s[|s| - 1]];
      b := b + [s[|s| - 1]];
    }
  }

  /** The whole number that a value stands for: its own, a float's without the decimals,
      1 and 0 for true and false, or what `int` makes of a text. */
  predicate StandsFor(env: Env, j: Json, n: int) {
    match j
    case Int(k) => n == k
    case Float(t, _) => n == t
    case Bool(b) => n == (if b then 1 else 0)
    case Str(s) => env.parseInt(s) == Ok(n)
    case _ => false
  }

  predicate Owner(env: Env, fields: map<string, Json>, key: string, n: int) {
    key in fields && StandsFor(env, fields[key], n) && n > 0
  }

  /** A flag that is missing is off; one that is there must be a boolean. */
  predicate FlagIs(fields: map<string, Json>, key: string, b: bool) {
    if key in fields then fields[key] == Bool(b) else !b
  }

  /** The id is the configured one without the white space around it if that is a plain
      word, and otherwise made from the whole object. */
  predicate IdIs(env: Env, fields: map<string, Json>, id: string) {
    if "id" in fields && IdOk(Strip(Text(fields["id"]))) then id == Strip(Text(fields["id"]))
    else id == "legacy-" + env.digest(Obj(fields))
  }

  predicate TimeIs(fields: map<string, Json>, time: map<string, Json>) {
    && "time" in fields && fields["time"] == Obj(time) && time != map[]
    && forall k :: k in time ==> TimeField(k) && FieldOk(time[k])
  }

  /** Which items are accepted, and what becomes of each field. */
  lemma NormalizeIff(env: Env, fields: map<string, Json>, m: Manual)
    ensures Normalize(env, Obj(fields)) == Ok(m) <==>
      && Owner(env, fields, "group_id", m.groupId) && Owner(env, fields, "creator_id", m.creatorId)
      && "text" in fields && fields["text"] == Str(m.text) && Strip(m.text) != ""
      && TimeIs(fields, m.time)
      && FlagIs(fields, "program", m.program) && FlagIs(fields, "single_time", m.singleTime)
      && IdIs(env, fields, m.id)
  {
    OwnerIff(env, fields, "group_id", m.groupId);
    OwnerIff(env, fields, "creator_id", m.creatorId);
    FlagIff(fields, "program", m.program);
    FlagIff(fields, "single_time", m.singleTime);
    IdIff(env, fields, m.id);
    hide IdOk, Strip, TimeField, FieldOk, Text, Flag, IntField, ManualId, Owner, FlagIs, IdIs;
  }

  lemma OwnerIff(env: Env, fields: map<string, Json>, key: string, n: int)
    ensures Owner(env, fields, key, n) <==> IntField(env, fields, key) == Ok(n) && n > 0
  {
  }

  lemma FlagIff(fields: map<string, Json>, key: string, b: bool)
    ensures FlagIs(fields, key, b) <==> Flag(fields, key) == Ok(b)
  {
  }

  lemma IdIff(env: Env, fields: map<string, Json>, id: string)
    ensures IdIs(env, fields, id) <==> id == ManualId(env, fields)
  {
    assert Strip("") == "";
    hide Strip, Text;
  }

  // --------------------------------------------------------------- whole files

  /** The schedule file: absent, unreadable or not a list, or a list of items. */
  datatype File = Missing | Broken | Items(items: seq<Json>)

  function ReadItems(env: Env, items: seq<Json>): Result<seq<Manual>, Error> {
    if items == [] then Ok([])
    else
      var first := Normalize(env, items[0]);
      if first.Err? then Err(first.error) else
      var rest := ReadItems(env, items[1..]);
      if rest.Err? then rest else Ok([first.value] + rest.value)
  }

  /** read_manual_schedules. */
  function Read(env: Env, f: File): Result<seq<Manual>, Error> {
    match f
    case Missing => Ok([])
    case Broken => Err(BadFile)
    case Items(items) => ReadItems(env, items)
  }

  function ItemsOf(ms: seq<Manual>): seq<Json> {
    seq(|ms|, i requires 0 <= i < |ms| => ToJson(ms[i]))
  }

  predicate AllCanonical(ms: seq<Manual>) {
    forall i :: 0 <= i < |ms| ==> Canonical(ms[i])
  }

  lemma {:induction false} ReadItemsCanonical(env: Env, items: seq<Json>)
    requires EnvOk(env) && ReadItems(env, items).Ok?
    ensures |ReadItems(env, items).value| == |items| && AllCanonical(ReadItems(env, items).value)
  {
    if items == [] {
    } else {
      NormalizeIsCanonical(env, items[0]);
      ReadItemsCanonical(env, items[1..]);
    }
  }

  lemma ReadCanonical(env: Env, f: File)
    requires EnvOk(env) && Read(env, f).Ok?
    ensures AllCanonical(Read(env, f).value)
  {
    if f.Items? {
      ReadItemsCanonical(env, f.items);
    }
  }

  lemma ItemsTail(ms: seq<Manual>)
    requires ms != []
    ensures ItemsOf(ms) != [] && ItemsOf(ms)[0] == ToJson(ms[0]) && ItemsOf(ms)[1..] == ItemsOf(ms[1..])
  {
    hide ToJson;
  }

  lemma ReadCons(env: Env, items: seq<Json>, m: Manual, ms: seq<Manual>)
    requires items != [] && Normalize(env, items[0]) == Ok(m) && ReadItems(env, items[1..]) == Ok(ms)
    ensures ReadItems(env, items) == Ok([m] + ms)
  {
    hide Normalize;
  }

  /** What was written is what the next read returns. */
  lemma {:induction false} ReadBack(env: Env, ms: seq<Manual>)
    requires AllCanonical(ms)
    ensures ReadItems(env, ItemsOf(ms)) == Ok(ms)
  {
    if ms == [] {
      assert ItemsOf(ms) == [];
    } else {
      hide Normalize, ToJson, Canonical, ItemsOf, ReadItems;
      CanonicalFixed(env, ms[0]);
      ReadBack(env, ms[1..]);
      ItemsTail(ms);
      ReadCons(env, ItemsOf(ms), ms[0], ms[1..]);
      assert ms == [ms[0]] + ms[1..];
    }
  }

  /** Writing a file back keeps every schedule and every id, legacy ones included. */
  lemma RewriteKeeps(env: Env, f: File)
    requires EnvOk(env) && Read(env, f).Ok?
    ensures Read(env, Items(ItemsOf(Read(env, f).value))) == Read(env, f)
  {
    ReadCanonical(env, f);
    ReadBack(env, Read(env, f).value);
  }
}
