/**
 * The form request `StoreUpdateTaskRequest`: the rules each attribute of a
 * create or update request must meet, the message for each rule, and the
 * way Laravel's validator applies those rules to a request body.
 */
module StoreUpdateTaskRequest {
  import opened Wrappers
  import opened Tasks
  import opened Middleware

  datatype HttpMethod = Get | Post | Put | Patch | Delete

  /** The attributes that carry rules. */
  datatype Field = Nome | Descricao | DataLimite | Finalizado | Id

  /** The rules named in the rule strings ('required|string|max:255', ...). */
  datatype Rule = Required | Nullable | IsString | Max(limit: nat) | Date | Boolean | Integer | Exists

  /** A rule of one attribute, written `nome.required` in the message table. */
  datatype RuleKey = RuleKey(field: Field, rule: Rule)

  /** A decoded request body; an attribute the client did not send is absent. */
  type Payload = map<Field, Value>

  /**
   * The framework's checks this model treats as given: what `date` accepts
   * (it parses dates) and the integer `integer` and `exists` see in a
   * value, if any.
   */
  datatype Coercions = Coercions(isDate: Value -> bool, asInteger: Value -> Option<int>)

  /** What `boolean` accepts: `true`, `false`, `0`, `1`, `"0"` and `"1"`, compared strictly. */
  predicate BooleanLike(v: Value)
  {
    v.Bool? || v == Int(0) || v == Int(1) || v == Str("0") || v == Str("1")
  }

  const MaxNome: nat := 255

  /** Every request is authorized. */
  function Authorize(): (allowed: bool)
    ensures allowed
  {
    true
  }

  /** The rule string of each attribute. */
  function FieldRules(f: Field): seq<Rule>
  {
    match f
    case Nome => [Required, IsString, Max(MaxNome)]
    case Descricao => [Nullable, IsString]
    case DataLimite => [Nullable, Date]
    case Finalizado => [Boolean]
    case Id => [Required, Integer, Exists]
  }

  /** Whether `rules()` lists attribute `f` for a request with method `m`. */
  predicate HasRules(m: HttpMethod, f: Field)
  {
    f != Id || m == Put || m == Patch
  }

  /** `rules()`: four attributes always, and `id` only for PUT and PATCH. */
  function Rules(m: HttpMethod): (rules: map<Field, seq<Rule>>)
    ensures Nome in rules && Descricao in rules && DataLimite in rules && Finalizado in rules
    ensures Id in rules <==> m == Put || m == Patch
    ensures forall f :: f in rules ==> rules[f] == FieldRules(f)
  {
    var base := map[
      Nome := FieldRules(Nome),
      Descricao := FieldRules(Descricao),
      DataLimite := FieldRules(DataLimite),
      Finalizado := FieldRules(Finalizado)];
    if m == Put || m == Patch then base[Id := FieldRules(Id)] else base
  }

  function FieldName(f: Field): string
  {
    match f
    case Nome => "nome"
    case Descricao => "descricao"
    case DataLimite => "data_limite"
    case Finalizado => "finalizado"
    case Id => "id"
  }

  function RuleName(r: Rule): string
  {
    match r
    case Required => "required"
    case Nullable => "nullable"
    case IsString => "string"
    case Max(_) => "max"
    case Date => "date"
    case Boolean => "boolean"
    case Integer => "integer"
    case Exists => "exists"
  }

  /** The key under which `messages()` lists a rule's message. */
  function KeyName(k: RuleKey): string
  {
    FieldName(k.field) + "." + RuleName(k.rule)
  }

  /**
   * `messages()`: one fixed message for each rule key a request can violate
   * and for no other. The table is indexed by the rule key itself; `KeyName`
   * spells the key as the source writes it.
   */
  function Messages(): (msgs: map<RuleKey, string>)
    ensures forall k :: k in msgs <==> Failable(k)
  {
    map[
      RuleKey(Nome, Required) := "O campo nome é obrigatório.",
      RuleKey(Nome, IsString) := "O campo nome deve ser uma string.",
      RuleKey(Nome, Max(MaxNome)) := "O campo nome não pode ter mais que 255 caracteres.",
      RuleKey(Descricao, IsString) := "O campo descrição deve ser uma string.",
      RuleKey(DataLimite, Date) := "O campo data limite deve ser uma data válida.",
      RuleKey(Finalizado, Boolean) := "O campo finalizado deve ser verdadeiro ou falso.",
      RuleKey(Id, Required) := "O campo id é obrigatório para atualização.",
      RuleKey(Id, Integer) := "O campo id deve ser um número inteiro.",
      RuleKey(Id, Exists) := "O id informado não existe."]
  }

  /** What `required` accepts: present, not null, not a blank string. */
  predicate Filled(v: Option<Value>)
  {
    v.Some? && !v.value.Null? && !(v.value.Str? && Blank(v.value.s))
  }

  function Get(p: Payload, f: Field): Option<Value>
  {
    if f in p then Some(p[f]) else None
  }

  /**
   * Whether the validator runs rule `r` on an attribute at all: only
   * `required` runs on an absent attribute or a blank string, no rule but
   * `required` runs on a null one marked `nullable`, and `exists` does not
   * run once an earlier rule of the attribute has failed.
   */
  predicate Applies(r: Rule, v: Option<Value>, rules: seq<Rule>, failedBefore: bool)
  {
    && (if v.Some? && v.value.Str? && Blank(v.value.s) then r.Required? else v.Some? || r.Required?)
    && (r.Required? || Nullable !in rules || !(v.Some? && v.value.Null?))
    && (!r.Exists? || !failedBefore)
  }

  /** Whether a value meets one rule. `max` limits the length of a string. */
  predicate Passes(r: Rule, v: Option<Value>, keys: set<int>, c: Coercions)
  {
    match r
    case Required => Filled(v)
    case Nullable => true
    case IsString => v.Some? && v.value.Str?
    case Max(n) => v.Some? && (v.value.Str? ==> |v.value.s| <= n)
    case Date => v.Some? && c.isDate(v.value)
    case Boolean => v.Some? && BooleanLike(v.value)
    case Integer => v.Some? && c.asInteger(v.value).Some?
    case Exists => v.Some? && c.asInteger(v.value).Some? && c.asInteger(v.value).value in keys
  }

  /**
   * The rules of one attribute that fail, checked in order; validation of
   * the attribute stops once `required` has failed.
   */
  function Failures(rs: seq<Rule>, rules: seq<Rule>, v: Option<Value>, keys: set<int>, c: Coercions, failed: set<Rule>): (res: set<Rule>)
    ensures failed <= res
    ensures forall r :: r in res ==> r in failed || (r in rs && !r.Nullable?)
    decreases |rs|
  {
    if rs == [] then failed
    else
      var r := rs[0];
      if Applies(r, v, rules, failed != {}) && !Passes(r, v, keys, c) then
        if r.Required? then failed + {r}
        else Failures(rs[1..], rules, v, keys, c, failed + {r})
      else Failures(rs[1..], rules, v, keys, c, failed)
  }

  /** The failing rules of attribute `f`, as rule keys. */
  function FieldErrors(f: Field, v: Option<Value>, keys: set<int>, c: Coercions): set<RuleKey>
  {
    set r | r in Failures(FieldRules(f), FieldRules(f), v, keys, c, {}) :: RuleKey(f, r)
  }

  /**
   * The rule keys a request body violates, for a request with method `m`
   * against a table whose ids are `keys`; empty when the body is valid.
   */
  function Validate(m: HttpMethod, p: Payload, keys: set<int>, c: Coercions): (errors: set<RuleKey>)
    ensures forall k :: k in errors ==> HasRules(m, k.field) && k.rule in FieldRules(k.field) && !k.rule.Nullable?
  {
    FieldErrors(Nome, Get(p, Nome), keys, c)
    + FieldErrors(Descricao, Get(p, Descricao), keys, c)
    + FieldErrors(DataLimite, Get(p, DataLimite), keys, c)
    + FieldErrors(Finalizado, Get(p, Finalizado), keys, c)
    + (if HasRules(m, Id) then FieldErrors(Id, Get(p, Id), keys, c) else {})
  }

  /**
   * The outcome of resolving the form request before the controller runs:
   * the validated attributes, or the violated rule keys.
   */
  function FormRequest(m: HttpMethod, p: Payload, keys: set<int>, c: Coercions): (r: Result<Changes, set<RuleKey>>)
    ensures r.Err? <==> Validate(m, p, keys, c) != {}
    ensures r.Err? ==> r.error == Validate(m, p, keys, c)
    ensures r.Ok? ==> Nome in p && p[Nome] == Str(r.value.nome) && !Blank(r.value.nome) && |r.value.nome| <= MaxNome
    ensures r.Ok? ==> r.value.descricao == Get(p, Descricao) && r.value.dataLimite == Get(p, DataLimite)
                      && r.value.finalizado == Get(p, Finalizado)
  {
    var errors := Validate(m, p, keys, c);
    if errors != {} then Err(errors)
    else
      NomeRules(m, p, keys, c);
      Ok(Changes(p[Nome].s, Get(p, Descricao), Get(p, DataLimite), Get(p, Finalizado)))
  }

  /** A rule key of attribute `f` fails exactly when `f` has rules for `m` and one of them fails. */
  lemma ValidateByField(m: HttpMethod, p: Payload, keys: set<int>, c: Coercions, f: Field, r: Rule)
    ensures RuleKey(f, r) in Validate(m, p, keys, c)
            <==> HasRules(m, f) && r in Failures(FieldRules(f), FieldRules(f), Get(p, f), keys, c, {})
  {
    if HasRules(m, f) && r in Failures(FieldRules(f), FieldRules(f), Get(p, f), keys, c, {}) {
      assert RuleKey(f, r) in FieldErrors(f, Get(p, f), keys, c);
    }
  }

  /** The failing rules of 'required|string|max:255': at most one of them. */
  lemma NomeFailures(v: Option<Value>, keys: set<int>, c: Coercions)
    ensures Failures(FieldRules(Nome), FieldRules(Nome), v, keys, c, {})
         == if !Filled(v) then {Required}
            else if !v.value.Str? then {IsString}
            else if |v.value.s| > MaxNome then {Max(MaxNome)}
            else {}
  {
    var rules := FieldRules(Nome);
    assert rules[1..] == [IsString, Max(MaxNome)];
    assert rules[1..][1..] == [Max(MaxNome)];
    assert rules[1..][1..][1..] == [];
    if Filled(v) {
      assert Failures(rules, rules, v, keys, c, {}) == Failures(rules[1..], rules, v, keys, c, {});
      if !v.value.Str? {
        assert Failures(rules[1..], rules, v, keys, c, {}) == Failures(rules[1..][1..], rules, v, keys, c, {IsString});
      } else {
        assert Failures(rules[1..], rules, v, keys, c, {}) == Failures(rules[1..][1..], rules, v, keys, c, {});
      }
    }
  }

  /** `nome`: 'required|string|max:255'. */
  lemma NomeRules(m: HttpMethod, p: Payload, keys: set<int>, c: Coercions)
    ensures var v := Get(p, Nome); var errors := Validate(m, p, keys, c);
      && (RuleKey(Nome, Required) in errors <==> !Filled(v))
      && (RuleKey(Nome, IsString) in errors <==> Filled(v) && !v.value.Str?)
      && (RuleKey(Nome, Max(MaxNome)) in errors <==> Filled(v) && v.value.Str? && |v.value.s| > MaxNome)
      && (forall r :: RuleKey(Nome, r) in errors ==> r == Required || r == IsString || r == Max(MaxNome))
  {
    NomeFailures(Get(p, Nome), keys, c);
    forall r
      ensures RuleKey(Nome, r) in Validate(m, p, keys, c)
          <==> r in Failures(FieldRules(Nome), FieldRules(Nome), Get(p, Nome), keys, c, {})
    {
      ValidateByField(m, p, keys, c, Nome, r);
    }
  }

  /** `descricao`: 'nullable|string'. */
  lemma DescricaoRules(m: HttpMethod, p: Payload, keys: set<int>, c: Coercions)
    ensures var v := Get(p, Descricao); var errors := Validate(m, p, keys, c);
      && (RuleKey(Descricao, IsString) in errors <==> v.Some? && !v.value.Null? && !v.value.Str?)
      && (forall r :: RuleKey(Descricao, r) in errors ==> r == IsString)
  {
    var v := Get(p, Descricao);
    var rules := FieldRules(Descricao);
    assert rules[1..] == [IsString];
    assert rules[1..][1..] == [];
    assert Failures(rules, rules, v, keys, c, {}) == Failures(rules[1..], rules, v, keys, c, {});
    forall r
      ensures RuleKey(Descricao, r) in Validate(m, p, keys, c) <==> r in Failures(rules, rules, v, keys, c, {})
    {
      ValidateByField(m, p, keys, c, Descricao, r);
    }
  }

  /** `data_limite`: 'nullable|date'. */
  lemma DataLimiteRules(m: HttpMethod, p: Payload, keys: set<int>, c: Coercions)
    ensures var v := Get(p, DataLimite); var errors := Validate(m, p, keys, c);
      && (RuleKey(DataLimite, Date) in errors
          <==> v.Some? && !v.value.Null? && !(v.value.Str? && Blank(v.value.s)) && !c.isDate(v.value))
      && (forall r :: RuleKey(DataLimite, r) in errors ==> r == Date)
  {
    var v := Get(p, DataLimite);
    var rules := FieldRules(DataLimite);
    assert rules[1..] == [Date];
    assert rules[1..][1..] == [];
    assert Failures(rules, rules, v, keys, c, {}) == Failures(rules[1..], rules, v, keys, c, {});
    forall r
      ensures RuleKey(DataLimite, r) in Validate(m, p, keys, c) <==> r in Failures(rules, rules, v, keys, c, {})
    {
      ValidateByField(m, p, keys, c, DataLimite, r);
    }
  }

  /** `finalizado`: 'boolean', which is not `nullable`, so a null that was sent fails it. */
  lemma FinalizadoRules(m: HttpMethod, p: Payload, keys: set<int>, c: Coercions)
    ensures var v := Get(p, Finalizado); var errors := Validate(m, p, keys, c);
      && (RuleKey(Finalizado, Boolean) in errors
          <==> v.Some? && !(v.value.Str? && Blank(v.value.s)) && !BooleanLike(v.value))
      && (v == Some(Null) ==> RuleKey(Finalizado, Boolean) in errors)
      && (forall r :: RuleKey(Finalizado, r) in errors ==> r == Boolean)
  {
    var v := Get(p, Finalizado);
    var rules := FieldRules(Finalizado);
    assert rules[1..] == [];
    forall r
      ensures RuleKey(Finalizado, r) in Validate(m, p, keys, c) <==> r in Failures(rules, rules, v, keys, c, {})
    {
      ValidateByField(m, p, keys, c, Finalizado, r);
    }
  }

  /** The failing rules of 'required|integer|exists:tasks,id'. */
  lemma IdFailures(v: Option<Value>, keys: set<int>, c: Coercions)
    ensures Failures(FieldRules(Id), FieldRules(Id), v, keys, c, {})
         == if !Filled(v) then {Required}
            else if c.asInteger(v.value).None? then {Integer}
            else if c.asInteger(v.value).value !in keys then {Exists}
            else {}
  {
    var rules := FieldRules(Id);
    assert rules[1..] == [Integer, Exists];
    assert rules[1..][1..] == [Exists];
    assert rules[1..][1..][1..] == [];
    if Filled(v) {
      assert Failures(rules, rules, v, keys, c, {}) == Failures(rules[1..], rules, v, keys, c, {});
      if c.asInteger(v.value).None? {
        assert Failures(rules[1..], rules, v, keys, c, {}) == Failures(rules[1..][1..], rules, v, keys, c, {Integer});
      } else {
        assert Failures(rules[1..], rules, v, keys, c, {}) == Failures(rules[1..][1..], rules, v, keys, c, {});
      }
    }
  }

  /**
   * `id` is checked for PUT and PATCH only: it must be sent, be an integer
   * and name an existing task; `exists` is not reported once `integer` failed.
   */
  lemma IdRules(m: HttpMethod, p: Payload, keys: set<int>, c: Coercions)
    ensures var v := Get(p, Id); var errors := Validate(m, p, keys, c);
      && (m != Put && m != Patch ==> forall r :: RuleKey(Id, r) !in errors)
      && (m == Put || m == Patch ==>
          && (RuleKey(Id, Required) in errors <==> !Filled(v))
          && (RuleKey(Id, Integer) in errors <==> Filled(v) && c.asInteger(v.value).None?)
          && (RuleKey(Id, Exists) in errors
              <==> Filled(v) && c.asInteger(v.value).Some? && c.asInteger(v.value).value !in keys)
          && (forall r :: RuleKey(Id, r) in errors ==> r == Required || r == Integer || r == Exists))
  {
    IdFailures(Get(p, Id), keys, c);
    forall r
      ensures RuleKey(Id, r) in Validate(m, p, keys, c)
          <==> HasRules(m, Id) && r in Failures(FieldRules(Id), FieldRules(Id), Get(p, Id), keys, c, {})
    {
      ValidateByField(m, p, keys, c, Id, r);
    }
  }

  /** The rule keys a request can violate. */
  predicate Failable(k: RuleKey)
  {
    || k == RuleKey(Nome, Required) || k == RuleKey(Nome, IsString) || k == RuleKey(Nome, Max(MaxNome))
    || k == RuleKey(Descricao, IsString) || k == RuleKey(DataLimite, Date) || k == RuleKey(Finalizado, Boolean)
    || k == RuleKey(Id, Required) || k == RuleKey(Id, Integer) || k == RuleKey(Id, Exists)
  }

  /** Every rule key a request violates is failable, so it has its message. */
  lemma EveryFailureHasMessage(m: HttpMethod, p: Payload, keys: set<int>, c: Coercions)
    ensures forall k :: k in Validate(m, p, keys, c) ==> Failable(k) && k in Messages()
  {
    NomeRules(m, p, keys, c);
    DescricaoRules(m, p, keys, c);
    DataLimiteRules(m, p, keys, c);
    FinalizadoRules(m, p, keys, c);
    IdRules(m, p, keys, c);
    forall k | k in Validate(m, p, keys, c)
      ensures Failable(k)
    {
      match k.field
      case Nome =>
      case Descricao =>
      case DataLimite =>
      case Finalizado =>
      case Id =>
    }
  }

  /** A body with a string `nome` of at most 255 characters and nothing else passes a POST. */
  lemma MinimalBodyIsValid(name: string, keys: set<int>, c: Coercions)
    requires !Blank(name) && |name| <= MaxNome
    ensures Validate(Post, map[Nome := Str(name)], keys, c) == {}
  {
    var p := map[Nome := Str(name)];
    NomeRules(Post, p, keys, c);
    DescricaoRules(Post, p, keys, c);
    DataLimiteRules(Post, p, keys, c);
    FinalizadoRules(Post, p, keys, c);
    IdRules(Post, p, keys, c);
    forall k | k in Validate(Post, p, keys, c)
      ensures false
    {
    }
  }

  /**
   * The body the form request sees has been through the middlewares, so a
   * `nome` string is judged by its trimmed text: a blank one is missing,
   * and only the trimmed length counts against `max:255`.
   */
  lemma NormalizedNomeRules(m: HttpMethod, p: Payload, keys: set<int>, c: Coercions)
    requires Nome in p && p[Nome].Str?
    ensures var errors := Validate(m, Normalize(p), keys, c);
      && (RuleKey(Nome, Required) in errors <==> Blank(p[Nome].s))
      && RuleKey(Nome, IsString) !in errors
      && (RuleKey(Nome, Max(MaxNome)) in errors <==> |Trim(p[Nome].s)| > MaxNome)
  {
    NomeRules(m, Normalize(p), keys, c);
    TrimEmpty(p[Nome].s);
  }

  /** A blank `finalizado` arrives as null, which `boolean` rejects. */
  lemma NormalizedBlankFinalizadoFails(m: HttpMethod, p: Payload, keys: set<int>, c: Coercions)
    requires Finalizado in p && p[Finalizado].Str? && Blank(p[Finalizado].s)
    ensures RuleKey(Finalizado, Boolean) in Validate(m, Normalize(p), keys, c)
  {
    FinalizadoRules(m, Normalize(p), keys, c);
  }

  /**
   * A blank `descricao` or `data_limite` arrives as null, passes its
   * `nullable` rule and is handed on as null.
   */
  lemma NormalizedBlankOptionalIsNull(m: HttpMethod, p: Payload, keys: set<int>, c: Coercions)
    requires Descricao in p && p[Descricao].Str? && Blank(p[Descricao].s)
    requires DataLimite in p && p[DataLimite].Str? && Blank(p[DataLimite].s)
    ensures RuleKey(Descricao, IsString) !in Validate(m, Normalize(p), keys, c)
    ensures RuleKey(DataLimite, Date) !in Validate(m, Normalize(p), keys, c)
    ensures FormRequest(m, Normalize(p), keys, c).Ok? ==>
      && FormRequest(m, Normalize(p), keys, c).value.descricao == Some(Null)
      && FormRequest(m, Normalize(p), keys, c).value.dataLimite == Some(Null)
  {
    DescricaoRules(m, Normalize(p), keys, c);
    DataLimiteRules(m, Normalize(p), keys, c);
  }
}
