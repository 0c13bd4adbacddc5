/**
  The structures that an emitted function takes and returns: their fields, and the width of each.
 */
module ShaderInterface {
  import opened Options
  import opened ShaderIr
  import opened ShaderSemantics
  import opened Msl

  // A field, and how many components its type has.
  datatype Field = Field(name: Name, width: nat)

  function NamesOf(fields: seq<Field>): (names: seq<Name>)
    ensures |names| == |fields| && forall k :: 0 <= k < |fields| ==> names[k] == fields[k].name
  {
    seq(|fields|, k requires 0 <= k < |fields| => fields[k].name)
  }

  // The channels a write mask selects.
  function Lanes(mask: Nibble): set<Lane> {
    set c: Lane | 0 <= c < 4 && Selected(mask, c)
  }

  // A vertex attribute is a float, float2 or float3 when its declaration selects that many
  // channels, and otherwise a float4.
  function AttributeWidth(mask: Nibble): (w: nat)
    ensures 1 <= w <= 4
  {
    if |Lanes(mask)| == 1 then 1 else if |Lanes(mask)| == 2 then 2 else if |Lanes(mask)| == 3 then 3 else 4
  }

  // The vertex attributes that the viewer's vertex descriptor has.
  predicate MappedUsage(usage: nat, index: nat) {
    || (usage in {0, 9, 3, 6, 7, 1, 2} && index == 0) || (usage == 10 && index < 2) || (usage == 5 && index < 6)
  }

  function InputField(p: Program, d: DclEntry): seq<Field> {
    if d.kind == INPUT && p.vertex then
      if MappedUsage(d.usage, d.usageIndex) then [Field(InV(d.number), AttributeWidth(d.writeMask))] else []
    else if d.kind == INPUT then [Field(InV(d.number), 4)]
    else if d.kind == ADDR && !p.vertex && p.major < 3 then [Field(InT(d.number), 4)]
    else []
  }

  predicate IsPosition(d: DclEntry) {
    d.usage == USAGE_POSITION && d.usageIndex == 0
  }

  function OutputField(p: Program, d: DclEntry): seq<Field> {
    if d.kind == OUTPUT && p.vertex && p.major >= 3 && !IsPosition(d) then [Field(OutO(d.number), 4)] else []
  }

  function FieldsOf(p: Program, dcls: seq<DclEntry>): seq<Field>
    decreases |dcls|
  {
    if dcls == [] then [] else InputField(p, dcls[0]) + OutputField(p, dcls[0]) + FieldsOf(p, dcls[1..])
  }

  // ---------------------------------------------------------------- the width of an input variable

  // A declaration of input n, which gives it a field unless its usage is not mapped.
  predicate DeclaresVariable(d: DclEntry, n: nat, mapped: bool) {
    d.kind == INPUT && d.number == n && (mapped ==> MappedUsage(d.usage, d.usageIndex))
  }

  // The declaration at k is the last of input n, or the last that gives it a field.
  predicate IsLast(dcls: seq<DclEntry>, k: nat, n: nat, mapped: bool) {
    k < |dcls| && DeclaresVariable(dcls[k], n, mapped)
    && forall j :: k < j < |dcls| ==> !DeclaresVariable(dcls[j], n, mapped)
  }

  function FindLast(dcls: seq<DclEntry>, n: nat, mapped: bool): (k: Option<nat>)
    ensures k.Some? ==> IsLast(dcls, k.value, n, mapped)
    ensures k.None? ==> forall j :: 0 <= j < |dcls| ==> !DeclaresVariable(dcls[j], n, mapped)
    decreases |dcls|
  {
    var last := |dcls| - 1;
    if dcls == [] then None
    else if DeclaresVariable(dcls[last], n, mapped) then Some(last)
    else
      assert forall j :: 0 <= j < last ==> dcls[..last][j] == dcls[j];
      FindLast(dcls[..last], n, mapped)
  }

  // How many components the input variable n has: those of its field.
  function VariableWidth(p: Program, n: nat): (w: nat)
    ensures 1 <= w <= 4
  {
    var field, last := FindLast(p.dcls, n, true), FindLast(p.dcls, n, false);
    if !p.vertex then 4
    else if field.Some? then AttributeWidth(p.dcls[field.value].writeMask)
    else if last.Some? then AttributeWidth(p.dcls[last.value].writeMask)
    else 4
  }

  // The last declaration of input n says the same of its width as its field's does.
  predicate DeclaredAlike(p: Program, n: nat) {
    var last := FindLast(p.dcls, n, false);
    p.vertex && last.Some? ==>
      (if n < 32 then AttributeWidth(p.dcls[last.value].writeMask) else 4) == VariableWidth(p, n)
  }

  lemma {:induction false} FieldFrom(p: Program, dcls: seq<DclEntry>, f: Field) returns (k: nat)
    requires f in FieldsOf(p, dcls)
    ensures k < |dcls| && f in InputField(p, dcls[k]) + OutputField(p, dcls[k])
    decreases |dcls|
  {
    hide InputField, OutputField;
    if f in InputField(p, dcls[0]) + OutputField(p, dcls[0]) {
      k := 0;
    } else {
      var m := FieldFrom(p, dcls[1..], f);
      k := m + 1;
    }
  }

  // Every declared field is there.
  lemma {:induction false} FieldThere(p: Program, dcls: seq<DclEntry>, k: nat)
    requires k < |dcls| && InputField(p, dcls[k]) != []
    ensures InputField(p, dcls[k])[0] in FieldsOf(p, dcls)
    decreases |dcls|
  {
    hide InputField, OutputField;
    if k > 0 { FieldThere(p, dcls[1..], k - 1); }
  }

  ghost predicate NoRepeats(s: seq<Name>) {
    forall j, k :: 0 <= j < k < |s| ==> s[j] != s[k]
  }

  // Without repeated names an input's field has the width of its variable.
  lemma {:induction false} FieldWidth(p: Program, f: Field)
    requires f in FieldsOf(p, p.dcls) && f.name.InV? && NoRepeats(NamesOf(FieldsOf(p, p.dcls)))
    ensures f.width == VariableWidth(p, f.name.n)
  {
    var k := FieldFrom(p, p.dcls, f);
    if p.vertex {
      var last := FindLast(p.dcls, f.name.n, true).value;
      FieldThere(p, p.dcls, last);
      var g := InputField(p, p.dcls[last])[0];
      var i :| 0 <= i < |FieldsOf(p, p.dcls)| && FieldsOf(p, p.dcls)[i] == f;
      var j :| 0 <= j < |FieldsOf(p, p.dcls)| && FieldsOf(p, p.dcls)[j] == g;
      assert NamesOf(FieldsOf(p, p.dcls))[i] == NamesOf(FieldsOf(p, p.dcls))[j];
    }
  }
}
