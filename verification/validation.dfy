/**
 Validation: delegation to a model's own `Validate()`, and the declarative
 field-rule check with its combined error message.
 */
module Validation {
  import opened Wrappers
  import opened Values
  import opened Errors
  import opened Model

  const Required := "required"
  const Email := "email"
  const Min := "min"
  const Max := "max"

  datatype Rule = Rule(name: string, value: Value)

  datatype Field = Field(name: string, value: Value, rules: seq<Rule>)

  /** `ValidateDocument`: the model's own verdict when it is Validatable, nil otherwise. */
  function ValidateDocument(doc: Instance): (r: Option<Error>)
    ensures doc.validator.NotValidatable? ==> r.None?
    ensures doc.validator.Validates? ==> r == doc.validator.result
  {
    match doc.validator
    case Validates(result) => result
    case NotValidatable => None
  }

  /** The reflect kinds `isEmpty` distinguishes. */
  datatype Kind = StringKind | ArrayKind | SliceKind | MapKind | OtherKind

  function KindOf(v: Value): Kind {
    match v
    case Str(_) => StringKind
    case Oid(_) => ArrayKind
    case Array(_) => ArrayKind
    case Slice(_) => SliceKind
    case D(_) => SliceKind
    case M(_) => MapKind
    case _ => OtherKind
  }

  /** `reflect.Value.Len` for the kinds that have one. */
  function Length(v: Value): nat
    requires KindOf(v) != OtherKind
  {
    match v
    case Str(s) => |s|
    case Oid(id) => |id|
    case Array(items) => |items|
    case Slice(items) => |items|
    case D(elems) => |elems|
    case M(entries) => |entries|
  }

  /**
   `isEmpty`: nil, and strings, arrays, slices and maps of length zero.
   Every other kind is present, so `0`, `false`, a nil pointer, the zero
   time and the zero `ObjectID` (an array of length twelve) all count.
   */
  function IsEmpty(v: Value): bool {
    if v.Null? then true
    else if KindOf(v) != OtherKind then Length(v) == 0
    else false
  }

  /** The empty values, listed: nil and the six zero-length values. */
  lemma EmptyValuesAre(v: Value)
    ensures IsEmpty(v) <==> v in {Null, Str(""), Array([]), Slice([]), D([]), M(map[])}
  {
  }

  /** Values the rule treats as present although they are zero in Go. */
  lemma ZeroValuesArePresent()
    ensures !IsEmpty(Int(0)) && !IsEmpty(Bool(false))
    ensures !IsEmpty(Ptr(None)) && !IsEmpty(Struct([]))
    ensures !IsEmpty(Oid(NilObjectID)) && !IsEmpty(Time(ZeroInstant))
  {
  }

  /** The entry contributed for an empty required field. */
  function RequiredMessage(name: string): string {
    name + " is required"
  }

  /** What one rule contributes for a field's value. */
  function RuleEntry(name: string, value: Value, rule: Rule): seq<string> {
    if rule.name == Required && IsEmpty(value) then [RequiredMessage(name)] else []
  }

  /** The entries a field's rules contribute, in rule order. */
  function RuleErrors(name: string, value: Value, rules: seq<Rule>): seq<string>
    decreases |rules|
  {
    if |rules| == 0 then []
    else RuleErrors(name, value, rules[..|rules| - 1]) + RuleEntry(name, value, rules[|rules| - 1])
  }

  function FieldErrors(f: Field): seq<string> {
    RuleErrors(f.name, f.value, f.rules)
  }

  /** All entries, field-major and rule-minor. */
  function Violations(fields: seq<Field>): seq<string>
    decreases |fields|
  {
    if |fields| == 0 then []
    else Violations(fields[..|fields| - 1]) + FieldErrors(fields[|fields| - 1])
  }

  /** `strings.Join`. */
  function Join(parts: seq<string>, sep: string): string
    decreases |parts|
  {
    if |parts| == 0 then ""
    else if |parts| == 1 then parts[0]
    else parts[0] + sep + Join(parts[1..], sep)
  }

  /** A field fails when one of its rules is `required` and its value is empty. */
  predicate Fails(f: Field) {
    IsEmpty(f.value) && HasRequired(f.rules)
  }

  predicate HasRequired(rules: seq<Rule>) {
    exists j :: 0 <= j < |rules| && rules[j].name == Required
  }

  lemma HasRequiredSnoc(rules: seq<Rule>)
    requires |rules| > 0
    ensures HasRequired(rules) <==> HasRequired(rules[..|rules| - 1]) || rules[|rules| - 1].name == Required
  {
    var init := rules[..|rules| - 1];
    if HasRequired(init) {
      var j :| 0 <= j < |init| && init[j].name == Required;
      assert rules[j] == init[j];
    }
    if HasRequired(rules) && rules[|rules| - 1].name != Required {
      var j :| 0 <= j < |rules| && rules[j].name == Required;
      assert init[j] == rules[j];
    }
  }

  /**
   `ValidateFields`: nil exactly when no field fails; otherwise one error
   whose text is the entries joined by ", ".
   */
  function ValidateFields(fields: seq<Field>): (r: Option<Error>)
    ensures r.None? <==> forall i :: 0 <= i < |fields| ==> !Fails(fields[i])
    ensures r.Some? ==> r.value == New(Join(Violations(fields), ", "))
  {
    NoViolationsIffNoFailure(fields);
    var errs := Violations(fields);
    if |errs| > 0 then Some(New(Join(errs, ", "))) else None
  }

  lemma {:induction false} RuleErrorsEmptyIff(name: string, value: Value, rules: seq<Rule>)
    ensures RuleErrors(name, value, rules) == [] <==> !(IsEmpty(value) && HasRequired(rules))
    decreases |rules|
  {
    if |rules| > 0 {
      RuleErrorsEmptyIff(name, value, rules[..|rules| - 1]);
      HasRequiredSnoc(rules);
    }
  }

  lemma {:induction false} NoViolationsIffNoFailure(fields: seq<Field>)
    ensures Violations(fields) == [] <==> forall i :: 0 <= i < |fields| ==> !Fails(fields[i])
    decreases |fields|
  {
    if |fields| > 0 {
      var init := fields[..|fields| - 1];
      var last := fields[|fields| - 1];
      NoViolationsIffNoFailure(init);
      RuleErrorsEmptyIff(last.name, last.value, last.rules);
      if forall i :: 0 <= i < |fields| ==> !Fails(fields[i]) {
        assert forall i :: 0 <= i < |init| ==> init[i] == fields[i];
      }
    }
  }

  /** Entries of separate field lists appear one list after the other. */
  lemma {:induction false} ViolationsConcat(a: seq<Field>, b: seq<Field>)
    ensures Violations(a + b) == Violations(a) + Violations(b)
    decreases |b|
  {
    if |b| == 0 {
      assert a + b == a;
    } else {
      var b' := b[..|b| - 1];
      assert (a + b)[..|a + b| - 1] == a + b';
      ViolationsConcat(a, b');
    }
  }

  /** A field whose rules are all non-`required` contributes nothing. */
  lemma {:induction false} NonRequiredRulesAreInert(name: string, value: Value, rules: seq<Rule>)
    requires forall j :: 0 <= j < |rules| ==> rules[j].name != Required
    ensures RuleErrors(name, value, rules) == []
    decreases |rules|
  {
    if |rules| > 0 {
      NonRequiredRulesAreInert(name, value, rules[..|rules| - 1]);
    }
  }

  /** How many of the rules are `required`, duplicates included. */
  function CountRequired(rules: seq<Rule>): nat
    decreases |rules|
  {
    if |rules| == 0 then 0
    else CountRequired(rules[..|rules| - 1]) + (if rules[|rules| - 1].name == Required then 1 else 0)
  }

  /**
   A field's entries are one "is required" message per `required` rule it
   carries, repeats not merged, when its value is empty, and none otherwise;
   every other rule contributes nothing.
   */
  lemma {:induction false} RuleErrorsAreRepeats(name: string, value: Value, rules: seq<Rule>)
    ensures RuleErrors(name, value, rules)
         == if IsEmpty(value) then seq(CountRequired(rules), _ => RequiredMessage(name)) else []
    decreases |rules|
  {
    if |rules| > 0 {
      var init := rules[..|rules| - 1];
      RuleErrorsAreRepeats(name, value, init);
      if IsEmpty(value) && rules[|rules| - 1].name == Required {
        var n := CountRequired(init);
        assert seq(n, _ => RequiredMessage(name)) + [RequiredMessage(name)]
            == seq(n + 1, _ => RequiredMessage(name));
      }
    }
  }

  /** A rule list naming `required` twice yields two identical entries. */
  lemma DuplicateRequiredIsNotMerged(name: string, value: Value, x: Value, y: Value)
    requires IsEmpty(value)
    ensures RuleErrors(name, value, [Rule(Required, x), Rule(Required, y)])
         == [RequiredMessage(name), RequiredMessage(name)]
  {
    var rules := [Rule(Required, x), Rule(Required, y)];
    assert rules[..1] == [Rule(Required, x)];
    assert [Rule(Required, x)][..0] == [];
    assert RuleErrors(name, value, rules[..1]) == [RequiredMessage(name)];
  }

  /** Every entry of the message names a field that failed. */
  lemma {:induction false} EntriesNameFailingFields(fields: seq<Field>, k: nat)
    requires k < |Violations(fields)|
    ensures exists i :: 0 <= i < |fields| && Fails(fields[i])
                        && Violations(fields)[k] == RequiredMessage(fields[i].name)
    decreases |fields|
  {
    var init := fields[..|fields| - 1];
    var last := fields[|fields| - 1];
    if k < |Violations(init)| {
      EntriesNameFailingFields(init, k);
      var i :| 0 <= i < |init| && Fails(init[i]) && Violations(init)[k] == RequiredMessage(init[i].name);
      assert fields[i] == init[i];
    } else {
      RuleEntriesAreRequiredMessages(last.name, last.value, last.rules, k - |Violations(init)|);
    }
  }

  lemma {:induction false} RuleEntriesAreRequiredMessages(name: string, value: Value, rules: seq<Rule>, k: nat)
    requires k < |RuleErrors(name, value, rules)|
    ensures RuleErrors(name, value, rules)[k] == RequiredMessage(name)
    ensures IsEmpty(value) && HasRequired(rules)
    decreases |rules|
  {
    var init := rules[..|rules| - 1];
    HasRequiredSnoc(rules);
    if k < |RuleErrors(name, value, init)| {
      RuleEntriesAreRequiredMessages(name, value, init, k);
    }
  }

  /** Every failing field has its entry in the list. */
  lemma {:induction false} FailingFieldIsReported(fields: seq<Field>, i: nat)
    requires i < |fields| && Fails(fields[i])
    ensures RequiredMessage(fields[i].name) in Violations(fields)
    decreases |fields|
  {
    var init := fields[..|fields| - 1];
    var last := fields[|fields| - 1];
    if i < |init| {
      assert init[i] == fields[i];
      FailingFieldIsReported(init, i);
    } else {
      RuleErrorsEmptyIff(last.name, last.value, last.rules);
      var errs := FieldErrors(last);
      RuleEntriesAreRequiredMessages(last.name, last.value, last.rules, 0);
      assert errs[0] in Violations(fields);
    }
  }

  /** `needle` occurs in `text` starting at position `p`. */
  predicate OccursAt(text: string, needle: string, p: int) {
    0 <= p <= |text| - |needle| && text[p..p + |needle|] == needle
  }

  /** `strings.Contains`. */
  predicate Contains(text: string, needle: string) {
    exists p :: 0 <= p <= |text| && OccursAt(text, needle, p)
  }

  /** Each part of a join occurs in it verbatim. */
  lemma {:induction false} JoinContainsParts(parts: seq<string>, sep: string, k: nat)
    requires k < |parts|
    ensures Contains(Join(parts, sep), parts[k])
    decreases |parts|
  {
    var s := Join(parts, sep);
    if |parts| == 1 {
      assert OccursAt(s, parts[k], 0);
    } else if k == 0 {
      assert s == parts[0] + (sep + Join(parts[1..], sep));
      assert OccursAt(s, parts[0], 0);
    } else {
      JoinContainsParts(parts[1..], sep, k - 1);
      var rest := Join(parts[1..], sep);
      var p :| 0 <= p <= |rest| && OccursAt(rest, parts[k], p);
      assert 0 <= p <= |rest| - |parts[k]|;
      var off := |parts[0]| + |sep|;
      assert s == (parts[0] + sep) + rest;
      assert s[off + p..off + p + |parts[k]|] == rest[p..p + |parts[k]|];
      assert OccursAt(s, parts[k], off + p);
    }
  }

  /** The error message names every field that failed. */
  lemma MessageNamesFailingField(fields: seq<Field>, i: nat)
    requires i < |fields| && Fails(fields[i])
    ensures ValidateFields(fields).Some?
    ensures Contains(ValidateFields(fields).value.text, fields[i].name)
  {
    var errs := Violations(fields);
    FailingFieldIsReported(fields, i);
    var k :| 0 <= k < |errs| && errs[k] == RequiredMessage(fields[i].name);
    JoinContainsParts(errs, ", ", k);
    var text := Join(errs, ", ");
    var p :| 0 <= p <= |text| && OccursAt(text, errs[k], p);
    assert 0 <= p <= |text| - |errs[k]|;
    var name := fields[i].name;
    assert errs[k][..|name|] == name;
    assert text[p..p + |name|] == text[p..p + |errs[k]|][..|name|];
    assert OccursAt(text, name, p);
  }

  lemma RuleErrorsSnoc(name: string, value: Value, rules: seq<Rule>, j: nat)
    requires j < |rules|
    ensures RuleErrors(name, value, rules[..j + 1]) == RuleErrors(name, value, rules[..j]) + RuleEntry(name, value, rules[j])
  {
    assert rules[..j + 1][..j] == rules[..j];
  }

  lemma ViolationsSnoc(fields: seq<Field>, i: nat)
    requires i < |fields|
    ensures Violations(fields[..i + 1]) == Violations(fields[..i]) + FieldErrors(fields[i])
  {
    assert fields[..i + 1][..i] == fields[..i];
  }

  /** The inner loop of the source: one field's rules, with the switch on the rule name. */
  method FieldErrorsLoop(field: Field) returns (entries: seq<string>)
    ensures entries == FieldErrors(field)
  {
    entries := [];
    for j := 0 to |field.rules|
      invariant entries == RuleErrors(field.name, field.value, field.rules[..j])
    {
      var rule := field.rules[j];
      RuleErrorsSnoc(field.name, field.value, field.rules, j);
      if rule.name == Required {
        if IsEmpty(field.value) {
          entries := entries + [RequiredMessage(field.name)];
        }
      }
      // email, min, max and unknown names: no check
    }
    assert field.rules[..|field.rules|] == field.rules;
  }

  /**
   The same check written as the source writes it: a loop over the fields
   appending each field's entries, then the join.
   */
  method ValidateFieldsLoop(fields: seq<Field>) returns (err: Option<Error>)
    ensures err == ValidateFields(fields)
  {
    var errs: seq<string> := [];
    for i := 0 to |fields|
      invariant errs == Violations(fields[..i])
    {
      var entries := FieldErrorsLoop(fields[i]);
      errs := errs + entries;
      ViolationsSnoc(fields, i);
    }
    assert fields[..|fields|] == fields;
    if |errs| > 0 {
      err := Some(New(Join(errs, ", ")));
    } else {
      err := None;
    }
  }
}
