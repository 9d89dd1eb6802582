/** The message codec: objects, arrays and free-form dictionaries to plain nested
    dictionaries and back. A dictionary keeps its insertion order. */
module Codec {
  import opened Collections

  datatype Field = Field(name: string, value: Value)

  datatype Value =
    | Null
    | Bool(b: bool)
    | Int(i: int)
    | Float(r: real)
    | Str(s: string)
    | Bytes(bytes: seq<bv8>)
    | List(items: seq<Value>)
    | Tuple(items: seq<Value>)
    | Dict(fields: seq<Field>)
    | Arr(dtype: string, buffer: seq<bv8>)          // one-dimensional
    | Obj(cls: string, attrs: seq<Field>)           // a message object and its attributes

  function TypeKey(): string { "__type__" }
  function RawDictKey(): string { "__raw_dict__" }
  function ArrayTag(): string { "Tensor" }

  /** Message classes by name with their attributes in order, and the item size of
      every dtype the array library names. */
  datatype Registry = Registry(classes: map<string, seq<string>>, dtypes: map<string, nat>)

  predicate Has(fields: seq<Field>, k: string) {
    exists i :: 0 <= i < |fields| && fields[i].name == k
  }

  function Get(fields: seq<Field>, k: string): (v: Option<Value>)
    ensures v.Some? <==> Has(fields, k)
    ensures v.Some? ==> exists i :: 0 <= i < |fields| && fields[i] == Field(k, v.value)
  {
    if fields == [] then None
    else if fields[0].name == k then assert fields[0] == Field(k, fields[0].value); Some(fields[0].value)
    else
      var v := Get(fields[1..], k);
      assert forall i :: 0 < i < |fields| ==> fields[i] == fields[1..][i - 1];
      assert Has(fields[1..], k) ==> Has(fields, k);
      v
  }

  /** Assignment to a key: in place if it is there, at the end if not. */
  function Put(fields: seq<Field>, k: string, v: Value): seq<Field> {
    if fields == [] then [Field(k, v)]
    else if fields[0].name == k then [Field(k, v)] + fields[1..]
    else [fields[0]] + Put(fields[1..], k, v)
  }

  function Names(fields: seq<Field>): (r: seq<string>)
    ensures |r| == |fields| && forall i :: 0 <= i < |r| ==> r[i] == fields[i].name
  {
    seq(|fields|, i requires 0 <= i < |fields| => fields[i].name)
  }

  predicate DistinctNames(fields: seq<Field>) {
    forall i, j :: 0 <= i < j < |fields| ==> fields[i].name != fields[j].name
  }

  // ---- encoding -----------------------------------------------------------------------

  function SerializeAny(v: Value): Value
    decreases v
  {
    match v
    case Dict(fields) =>
      var encoded := seq(|fields|, i requires 0 <= i < |fields| => Field(fields[i].name, SerializeAny(fields[i].value)));
      if Has(encoded, TypeKey()) || Has(encoded, RawDictKey()) then Dict([Field(RawDictKey(), Dict(encoded))]) else Dict(encoded)
    case List(items) => List(seq(|items|, i requires 0 <= i < |items| => SerializeAny(items[i])))
    case Tuple(items) => Tuple(seq(|items|, i requires 0 <= i < |items| => SerializeAny(items[i])))
    case Arr(dtype, buffer) => Dict([Field(TypeKey(), Str(ArrayTag())), Field("buffer", Bytes(buffer)), Field("dtype", Str(dtype))])
    case Obj(cls, attrs) =>
      var encoded := seq(|attrs|, i requires 0 <= i < |attrs| => Field(attrs[i].name, SerializeAny(attrs[i].value)));
      Dict(PutAll([Field(TypeKey(), Str(cls))], encoded))
    case _ => v
  }

  function PutAll(acc: seq<Field>, fields: seq<Field>): seq<Field>
    decreases |fields|
  {
    if fields == [] then acc else PutAll(Put(acc, fields[0].name, fields[0].value), fields[1..])
  }

  lemma {:induction false} PutNew(acc: seq<Field>, k: string, v: Value)
    requires !Has(acc, k)
    ensures Put(acc, k, v) == acc + [Field(k, v)]
  {
    if acc != [] {
      assert acc[0].name != k;
      assert forall i :: 0 <= i < |acc[1..]| ==> acc[1..][i] == acc[i + 1];
      PutNew(acc[1..], k, v);
    }
  }

  lemma {:induction false} PutAllNew(acc: seq<Field>, fields: seq<Field>)
    requires DistinctNames(fields) && forall i :: 0 <= i < |fields| ==> !Has(acc, fields[i].name)
    ensures PutAll(acc, fields) == acc + fields
    decreases |fields|
  {
    if fields == [] {
      assert acc + fields == acc;
    } else {
      PutNew(acc, fields[0].name, fields[0].value);
      var next := acc + [fields[0]];
      forall i | 0 <= i < |fields[1..]| ensures !Has(next, fields[1..][i].name) {
        assert !Has(acc, fields[i + 1].name) && fields[0].name != fields[i + 1].name;
        assert forall k :: 0 <= k < |next| ==> next[k] == if k < |acc| then acc[k] else fields[0];
      }
      PutAllNew(next, fields[1..]);
      assert next + fields[1..] == acc + fields;
    }
  }

  // ---- what an encoding looks like ------------------------------------------------------

  /** No array and no object anywhere: what the transport can carry. */
  predicate Wire(v: Value)
    decreases v
  {
    match v
    case Dict(fields) => forall i :: 0 <= i < |fields| ==> Wire(fields[i].value)
    case List(items) => forall i :: 0 <= i < |items| ==> Wire(items[i])
    case Tuple(items) => forall i :: 0 <= i < |items| ==> Wire(items[i])
    case Arr(_, _) => false
    case Obj(_, _) => false
    case _ => true
  }

  /** And no dictionary with a reserved key. */
  predicate Bare(v: Value)
    decreases v
  {
    match v
    case Dict(fields) =>
      !Has(fields, TypeKey()) && !Has(fields, RawDictKey()) && forall i :: 0 <= i < |fields| ==> Bare(fields[i].value)
    case List(items) => forall i :: 0 <= i < |items| ==> Bare(items[i])
    case Tuple(items) => forall i :: 0 <= i < |items| ==> Bare(items[i])
    case Arr(_, _) => false
    case Obj(_, _) => false
    case _ => true
  }

  predicate WireFields(fields: seq<Field>) {
    forall i :: 0 <= i < |fields| ==> Wire(fields[i].value)
  }

  lemma {:induction false} PutWire(acc: seq<Field>, k: string, v: Value)
    requires WireFields(acc) && Wire(v)
    ensures WireFields(Put(acc, k, v))
  {
    hide Wire;
    if acc != [] && acc[0].name != k { PutWire(acc[1..], k, v); }
  }

  lemma {:induction false} PutAllWire(acc: seq<Field>, fields: seq<Field>)
    requires WireFields(acc) && WireFields(fields)
    ensures WireFields(PutAll(acc, fields))
    decreases |fields|
  {
    hide Wire, Put;
    if fields != [] {
      PutWire(acc, fields[0].name, fields[0].value);
      PutAllWire(Put(acc, fields[0].name, fields[0].value), fields[1..]);
    }
  }

  function Encoded(fields: seq<Field>): (r: seq<Field>)
    ensures |r| == |fields|
    ensures forall i :: 0 <= i < |r| ==> r[i] == Field(fields[i].name, SerializeAny(fields[i].value))
  {
    seq(|fields|, i requires 0 <= i < |fields| => Field(fields[i].name, SerializeAny(fields[i].value)))
  }

  lemma WireWrapped(fields: seq<Field>)
    requires WireFields(fields)
    ensures Wire(Dict(fields)) && Wire(Dict([Field(RawDictKey(), Dict(fields))]))
  {
    assert Wire(Dict(fields));
    var outer := [Field(RawDictKey(), Dict(fields))];
    forall i | 0 <= i < |outer| ensures Wire(outer[i].value) {
    }
  }

  /** Whatever is encoded, the transport can carry. */
  lemma {:induction false} EncodingIsWire(v: Value)
    ensures Wire(SerializeAny(v))
    decreases v
  {
    match v
    case Dict(fields) =>
      forall i | 0 <= i < |fields| ensures Wire(Encoded(fields)[i].value) { EncodingIsWire(fields[i].value); }
      WireWrapped(Encoded(fields));
    case List(items) =>
      forall i | 0 <= i < |items| ensures Wire(SerializeAny(items[i])) { EncodingIsWire(items[i]); }
    case Tuple(items) =>
      forall i | 0 <= i < |items| ensures Wire(SerializeAny(items[i])) { EncodingIsWire(items[i]); }
    case Obj(cls, attrs) =>
      forall i | 0 <= i < |attrs| ensures Wire(Encoded(attrs)[i].value) { EncodingIsWire(attrs[i].value); }
      PutAllWire([Field(TypeKey(), Str(cls))], Encoded(attrs));
    case _ =>
  }

  /** A value wrapped k times as a raw dictionary. */
  function Wrapped(v: Value, k: nat): Value {
    if k == 0 then v else Dict([Field(RawDictKey(), Wrapped(v, k - 1))])
  }

  lemma {:induction false} WrappedMore(v: Value, k: nat, l: nat)
    ensures Wrapped(Wrapped(v, k), l) == Wrapped(v, k + l)
    decreases l
  {
    if l > 0 { WrappedMore(v, k, l - 1); }
  }

  lemma EncodedWrap(w: Value)
    ensures SerializeAny(Wrapped(w, 1)) == Wrapped(SerializeAny(w), 2)
  {
    var fields := [Field(RawDictKey(), w)];
    assert Wrapped(w, 1) == Dict(fields) by { assert Wrapped(w, 0) == w; }
    assert Encoded(fields) == [Field(RawDictKey(), SerializeAny(w))];
    assert Encoded(fields)[0].name == RawDictKey();
    assert Wrapped(SerializeAny(w), 1) == Dict(Encoded(fields)) by { assert Wrapped(SerializeAny(w), 0) == SerializeAny(w); }
  }

  /** No value is a wrapping of its own encoding. */
  lemma {:induction false} NeverWrapped(v: Value, k: nat)
    requires k > 0
    ensures v != Wrapped(SerializeAny(v), k)
    decreases v
  {
    if v == Wrapped(SerializeAny(v), k) {
      var w := v.fields[0].value;
      assert w == Wrapped(SerializeAny(v), k - 1);
      assert v == Wrapped(w, 1) by { assert Wrapped(w, 0) == w; }
      EncodedWrap(w);
      WrappedMore(SerializeAny(w), 2, k - 1);
      NeverWrapped(w, k + 1);
    }
  }

  lemma SelfDict(fields: seq<Field>)
    requires forall i :: 0 <= i < |fields| ==> (SerializeAny(fields[i].value) == fields[i].value <==> Bare(fields[i].value))
    ensures SerializeAny(Dict(fields)) == Dict(fields) <==> Bare(Dict(fields))
  {
    var e := Encoded(fields);
    assert forall k :: Has(e, k) <==> Has(fields, k) by {
      forall k ensures Has(e, k) <==> Has(fields, k) {
        assert forall i :: 0 <= i < |fields| ==> e[i].name == fields[i].name;
      }
    }
    hide Has, Bare;
    if Has(fields, TypeKey()) || Has(fields, RawDictKey()) {
      if Dict([Field(RawDictKey(), Dict(e))]) == Dict(fields) {
        var w := fields[0].value;
        assert e == [Field(RawDictKey(), SerializeAny(w))];
        assert w == Wrapped(SerializeAny(w), 1) by { assert Wrapped(SerializeAny(w), 0) == SerializeAny(w); }
        NeverWrapped(w, 1);
      }
      BareDict(fields);
    } else {
      assert e == fields <==> forall i :: 0 <= i < |fields| ==> SerializeAny(fields[i].value) == fields[i].value by {
        if forall i :: 0 <= i < |fields| ==> SerializeAny(fields[i].value) == fields[i].value {
          assert forall i :: 0 <= i < |fields| ==> e[i] == fields[i];
        }
      }
      BareDict(fields);
    }
  }

  lemma BareDict(fields: seq<Field>)
    ensures Bare(Dict(fields)) <==>
      !Has(fields, TypeKey()) && !Has(fields, RawDictKey()) && forall i :: 0 <= i < |fields| ==> Bare(fields[i].value)
  {
  }

  /** An encoding is the value itself exactly if that holds no array, no object and no
      reserved key. */
  lemma {:induction false} SelfEncoded(v: Value)
    ensures SerializeAny(v) == v <==> Bare(v)
    decreases v
  {
    match v
    case Dict(fields) =>
      forall i | 0 <= i < |fields| ensures SerializeAny(fields[i].value) == fields[i].value <==> Bare(fields[i].value) { SelfEncoded(fields[i].value); }
      SelfDict(fields);
    case List(items) =>
      forall i | 0 <= i < |items| ensures SerializeAny(items[i]) == items[i] <==> Bare(items[i]) { SelfEncoded(items[i]); }
      SelfItems(items);
    case Tuple(items) =>
      forall i | 0 <= i < |items| ensures SerializeAny(items[i]) == items[i] <==> Bare(items[i]) { SelfEncoded(items[i]); }
      SelfItems(items);
    case _ =>
  }

  lemma SelfItems(items: seq<Value>)
    requires forall i :: 0 <= i < |items| ==> (SerializeAny(items[i]) == items[i] <==> Bare(items[i]))
    ensures seq(|items|, i requires 0 <= i < |items| => SerializeAny(items[i])) == items <==> forall i :: 0 <= i < |items| ==> Bare(items[i])
  {
    hide Bare, SerializeAny;
    var e := seq(|items|, i requires 0 <= i < |items| => SerializeAny(items[i]));
    if e == items {
      forall i | 0 <= i < |items| ensures Bare(items[i]) { assert e[i] == items[i]; }
    }
  }

  // ---- decoding -----------------------------------------------------------------------

  function DeserializeAny(reg: Registry, data: Value): Option<Value>
    decreases data
  {
    match data
    case Dict(fields) =>
      if |fields| == 1 && Has(fields, RawDictKey()) then
        // the sole entry is the wrapped dictionary
        match fields[0].value
        case Dict(inner) =>
          if forall i :: 0 <= i < |inner| ==> DeserializeAny(reg, inner[i].value).Some? then
            Some(Dict(seq(|inner|, i requires 0 <= i < |inner| && DeserializeAny(reg, inner[i].value).Some? =>
              Field(inner[i].name, DeserializeAny(reg, inner[i].value).value))))
          else None
        case _ => None
      else if Has(fields, TypeKey()) then
        var tag := Get(fields, TypeKey()).value;
        if tag == Str(ArrayTag()) then DecodeArray(reg, fields)
        else if tag.Str? && tag.s in reg.classes then
          if (forall i :: 0 <= i < |fields| && fields[i].name != TypeKey() ==> DeserializeAny(reg, fields[i].value).Some?) then
            var kwargs := seq(|fields|, i requires 0 <= i < |fields| =>
              Field(fields[i].name,
                    if fields[i].name != TypeKey() && DeserializeAny(reg, fields[i].value).Some?
                    then DeserializeAny(reg, fields[i].value).value else Null));
            Construct(reg, tag.s, WithoutTag(kwargs))
          else None
        else None
      else if forall i :: 0 <= i < |fields| ==> DeserializeAny(reg, fields[i].value).Some? then
        Some(Dict(seq(|fields|, i requires 0 <= i < |fields| && DeserializeAny(reg, fields[i].value).Some? =>
          Field(fields[i].name, DeserializeAny(reg, fields[i].value).value))))
      else None
    case List(items) =>
      if forall i :: 0 <= i < |items| ==> DeserializeAny(reg, items[i]).Some? then
        Some(List(seq(|items|, i requires 0 <= i < |items| && DeserializeAny(reg, items[i]).Some? => DeserializeAny(reg, items[i]).value)))
      else None
    case Tuple(items) =>
      if forall i :: 0 <= i < |items| ==> DeserializeAny(reg, items[i]).Some? then
        Some(Tuple(seq(|items|, i requires 0 <= i < |items| && DeserializeAny(reg, items[i]).Some? => DeserializeAny(reg, items[i]).value)))
      else None
    case Arr(_, _) => None
    case Obj(_, _) => None
    case _ => Some(data)
  }

  function WithoutTag(fields: seq<Field>): seq<Field> {
    if fields == [] then [] else (if fields[0].name == TypeKey() then [] else [fields[0]]) + WithoutTag(fields[1..])
  }

  /** A buffer of whole items of a known dtype. */
  function DecodeArray(reg: Registry, fields: seq<Field>): Option<Value> {
    var buffer, dtype := Get(fields, "buffer"), Get(fields, "dtype");
    if buffer.Some? && buffer.value.Bytes? && dtype.Some? && dtype.value.Str? && KnownArray(reg, dtype.value.s, buffer.value.bytes)
    then Some(Arr(dtype.value.s, buffer.value.bytes))
    else None
  }

  predicate KnownArray(reg: Registry, dtype: string, buffer: seq<bv8>) {
    dtype in reg.dtypes && reg.dtypes[dtype] > 0 && |buffer| % reg.dtypes[dtype] == 0
  }

  /** A class called with keyword arguments: all of its attributes and no others. */
  function Construct(reg: Registry, cls: string, kwargs: seq<Field>): Option<Value>
    requires cls in reg.classes
  {
    if Names(kwargs) == reg.classes[cls] then Some(Obj(cls, kwargs)) else None
  }

  // ---- the round trip -------------------------------------------------------------------

  /** What a message can hold: dictionaries and objects without repeated names,
      arrays of known dtype, and objects with the attributes of their class. */
  ghost predicate Shaped(reg: Registry, v: Value)
    decreases v
  {
    match v
    case Dict(fields) => DistinctNames(fields) && forall i :: 0 <= i < |fields| ==> Shaped(reg, fields[i].value)
    case List(items) => forall i :: 0 <= i < |items| ==> Shaped(reg, items[i])
    case Tuple(items) => forall i :: 0 <= i < |items| ==> Shaped(reg, items[i])
    case Arr(dtype, buffer) => KnownArray(reg, dtype, buffer)
    case Obj(cls, attrs) =>
      DistinctNames(attrs) && !Has(attrs, TypeKey()) && (cls in reg.classes ==> Names(attrs) == reg.classes[cls])
      && forall i :: 0 <= i < |attrs| ==> Shaped(reg, attrs[i].value)
    case _ => true
  }

  /** Every object inside is of a registered class, none of the name the array tag
      uses. */
  ghost predicate Registered(reg: Registry, v: Value)
    decreases v
  {
    match v
    case Dict(fields) => forall i :: 0 <= i < |fields| ==> Registered(reg, fields[i].value)
    case List(items) => forall i :: 0 <= i < |items| ==> Registered(reg, items[i])
    case Tuple(items) => forall i :: 0 <= i < |items| ==> Registered(reg, items[i])
    case Obj(cls, attrs) => cls in reg.classes && cls != ArrayTag() && forall i :: 0 <= i < |attrs| ==> Registered(reg, attrs[i].value)
    case _ => true
  }

  ghost predicate Returns(reg: Registry, v: Value) {
    DeserializeAny(reg, SerializeAny(v)) == Some(v)
  }

  function Decoded(reg: Registry, fields: seq<Field>): (r: Option<seq<Field>>)
    ensures r.Some? <==> forall i :: 0 <= i < |fields| ==> DeserializeAny(reg, fields[i].value).Some?
    ensures r.Some? ==> |r.value| == |fields|
    ensures r.Some? ==> forall i :: 0 <= i < |fields| ==> Some(r.value[i].value) == DeserializeAny(reg, fields[i].value) && r.value[i].name == fields[i].name
  {
    if forall i :: 0 <= i < |fields| ==> DeserializeAny(reg, fields[i].value).Some? then
      Some(seq(|fields|, i requires 0 <= i < |fields| && DeserializeAny(reg, fields[i].value).Some? =>
        Field(fields[i].name, DeserializeAny(reg, fields[i].value).value)))
    else None
  }

  /** Fields come back exactly if each value does. */
  lemma FieldsReturn(reg: Registry, fields: seq<Field>)
    ensures Decoded(reg, Encoded(fields)) == Some(fields) <==> forall i :: 0 <= i < |fields| ==> Returns(reg, fields[i].value)
  {
    hide SerializeAny, DeserializeAny;
    var enc := Encoded(fields);
    var dec := Decoded(reg, enc);
    if dec == Some(fields) {
      forall i | 0 <= i < |fields| ensures Returns(reg, fields[i].value) {
        assert Some(dec.value[i].value) == DeserializeAny(reg, enc[i].value);
      }
    }
    if forall i :: 0 <= i < |fields| ==> Returns(reg, fields[i].value) {
      forall i | 0 <= i < |fields| ensures DeserializeAny(reg, enc[i].value) == Some(fields[i].value) {
        assert Returns(reg, fields[i].value);
      }
      assert dec.value == fields;
    }
  }

  lemma SameNames(fields: seq<Field>, k: string)
    ensures Has(Encoded(fields), k) <==> Has(fields, k)
  {
    hide SerializeAny;
    if Has(fields, k) {
      var i :| 0 <= i < |fields| && fields[i].name == k;
      assert Encoded(fields)[i].name == k;
    }
    if Has(Encoded(fields), k) {
      var i :| 0 <= i < |fields| && Encoded(fields)[i].name == k;
      assert fields[i].name == k;
    }
  }

  lemma PlainDict(reg: Registry, fields: seq<Field>)
    requires !(|fields| == 1 && Has(fields, RawDictKey())) && !Has(fields, TypeKey())
    ensures DeserializeAny(reg, Dict(fields)) == match Decoded(reg, fields) case Some(fs) => Some(Dict(fs)) case None => None
  {
  }

  lemma WrappedDict(reg: Registry, fields: seq<Field>)
    ensures DeserializeAny(reg, Dict([Field(RawDictKey(), Dict(fields))])) == match Decoded(reg, fields) case Some(fs) => Some(Dict(fs)) case None => None
  {
    var outer := [Field(RawDictKey(), Dict(fields))];
    assert outer[0].name == RawDictKey();
    assert |outer| == 1 && Has(outer, RawDictKey());
  }

  /** Whatever names it uses, a dictionary comes back exactly if its values do. */
  lemma DictReturns(reg: Registry, fields: seq<Field>)
    ensures Returns(reg, Dict(fields)) <==> forall i :: 0 <= i < |fields| ==> Returns(reg, fields[i].value)
  {
    var enc := Encoded(fields);
    FieldsReturn(reg, fields);
    if Has(enc, TypeKey()) || Has(enc, RawDictKey()) {
      assert SerializeAny(Dict(fields)) == Dict([Field(RawDictKey(), Dict(enc))]);
      WrappedDict(reg, enc);
    } else {
      assert SerializeAny(Dict(fields)) == Dict(enc);
      PlainDict(reg, enc);
    }
  }

  lemma ListReturns(reg: Registry, items: seq<Value>)
    ensures Returns(reg, List(items)) <==> forall i :: 0 <= i < |items| ==> Returns(reg, items[i])
    ensures Returns(reg, Tuple(items)) <==> forall i :: 0 <= i < |items| ==> Returns(reg, items[i])
  {
    var enc := SerializeAny(List(items)).items;
    assert SerializeAny(Tuple(items)) == Tuple(enc);
    assert forall i :: 0 <= i < |items| ==> enc[i] == SerializeAny(items[i]);
    var dec, tup := DeserializeAny(reg, List(enc)), DeserializeAny(reg, Tuple(enc));
    assert dec.Some? <==> tup.Some?;
    assert dec.Some? ==> tup.value.items == dec.value.items;
    assert dec.Some? ==> forall i :: 0 <= i < |items| ==> Some(dec.value.items[i]) == DeserializeAny(reg, enc[i]);
    if dec == Some(List(items)) {
      forall i | 0 <= i < |items| ensures Returns(reg, items[i]) { assert dec.value.items[i] == items[i]; }
    }
    if forall i :: 0 <= i < |items| ==> Returns(reg, items[i]) {
      assert forall i :: 0 <= i < |items| ==> DeserializeAny(reg, enc[i]) == Some(items[i]);
      assert dec.Some? && dec.value.items == items;
    }
  }

  lemma ArrayReturns(reg: Registry, dtype: string, buffer: seq<bv8>)
    requires KnownArray(reg, dtype, buffer)
    ensures Returns(reg, Arr(dtype, buffer))
  {
    var fs := [Field(TypeKey(), Str(ArrayTag())), Field("buffer", Bytes(buffer)), Field("dtype", Str(dtype))];
    assert fs[1..][0] == fs[1] && fs[1..][1..][0] == fs[2];
    assert fs[0].name == TypeKey() && fs[1].name == "buffer" && fs[2].name == "dtype";
    assert Get(fs, TypeKey()) == Some(Str(ArrayTag()));
    assert Get(fs[1..], "buffer") == Some(Bytes(buffer));
    assert Get(fs, "buffer") == Some(Bytes(buffer));
    assert Get(fs[1..][1..], "dtype") == Some(Str(dtype));
    assert Get(fs, "dtype") == Some(Str(dtype));
  }

  /** Encoding an object: the tag, then its attributes. */
  lemma ObjectEncoding(cls: string, attrs: seq<Field>)
    requires DistinctNames(attrs) && !Has(attrs, TypeKey())
    ensures SerializeAny(Obj(cls, attrs)) == Dict([Field(TypeKey(), Str(cls))] + Encoded(attrs))
  {
    var enc, tag := Encoded(attrs), [Field(TypeKey(), Str(cls))];
    forall i | 0 <= i < |enc| ensures !Has(tag, enc[i].name) { assert enc[i].name == attrs[i].name; }
    assert DistinctNames(enc);
    PutAllNew(tag, enc);
  }

  function KeywordArgs(reg: Registry, fields: seq<Field>): (r: seq<Field>)
    ensures |r| == |fields| && forall i :: 0 <= i < |r| ==> r[i].name == fields[i].name
    ensures forall i :: 0 <= i < |r| && fields[i].name != TypeKey() && DeserializeAny(reg, fields[i].value).Some? ==>
      Some(r[i].value) == DeserializeAny(reg, fields[i].value)
  {
    seq(|fields|, i requires 0 <= i < |fields| =>
      Field(fields[i].name,
            if fields[i].name != TypeKey() && DeserializeAny(reg, fields[i].value).Some?
            then DeserializeAny(reg, fields[i].value).value else Null))
  }

  predicate ArgsDecode(reg: Registry, fields: seq<Field>) {
    forall i :: 0 <= i < |fields| && fields[i].name != TypeKey() ==> DeserializeAny(reg, fields[i].value).Some?
  }

  lemma TaggedDecoding(reg: Registry, cls: string, fields: seq<Field>)
    requires Has(fields, TypeKey()) && Get(fields, TypeKey()) == Some(Str(cls))
    ensures DeserializeAny(reg, Dict(fields)) ==
      if cls == ArrayTag() then DecodeArray(reg, fields)
      else if cls in reg.classes && ArgsDecode(reg, fields) then Construct(reg, cls, WithoutTag(KeywordArgs(reg, fields)))
      else None
  {
    assert !(|fields| == 1 && Has(fields, RawDictKey()));
  }

  lemma NoTag(fields: seq<Field>, i: nat)
    requires !Has(fields, TypeKey()) && i < |fields|
    ensures fields[i].name != TypeKey()
  {
  }

  lemma AnyTagged(reg: Registry, tag: Field, fields: seq<Field>)
    requires !Has(fields, TypeKey()) && tag.name == TypeKey()
    ensures ArgsDecode(reg, [tag] + fields) <==> Decoded(reg, fields).Some?
  {
    hide DeserializeAny, Has, TypeKey;
    var all := [tag] + fields;
    forall i | 0 <= i < |fields| ensures all[i + 1] == fields[i] && fields[i].name != TypeKey() { NoTag(fields, i); }
    if ArgsDecode(reg, all) {
      forall i | 0 <= i < |fields| ensures DeserializeAny(reg, fields[i].value).Some? { assert all[i + 1] == fields[i]; }
    } else {
      var i :| 0 <= i < |all| && all[i].name != TypeKey() && DeserializeAny(reg, all[i].value).None?;
      assert fields[i - 1] == all[i];
    }
  }

  /** Behind the tag, the keyword arguments are the decoded fields. */
  lemma ArgsBehindTag(reg: Registry, tag: Field, fields: seq<Field>)
    requires !Has(fields, TypeKey()) && tag.name == TypeKey() && Decoded(reg, fields).Some?
    ensures WithoutTag(KeywordArgs(reg, [tag] + fields)) == Decoded(reg, fields).value
  {
    hide DeserializeAny, Has, TypeKey, KeywordArgs, Decoded;
    var all := [tag] + fields;
    var kwargs, dec := KeywordArgs(reg, all), Decoded(reg, fields).value;
    forall i | 0 <= i < |fields| ensures kwargs[i + 1] == dec[i] && dec[i].name != TypeKey() {
      NoTag(fields, i);
      assert all[i + 1] == fields[i];
      assert DeserializeAny(reg, fields[i].value).Some?;
    }
    assert kwargs[1..] == dec;
    NoTagKeeps(dec);
  }

  lemma {:induction false} NoTagKeeps(fields: seq<Field>)
    requires forall i :: 0 <= i < |fields| ==> fields[i].name != TypeKey()
    ensures WithoutTag(fields) == fields
  {
    if fields != [] { NoTagKeeps(fields[1..]); }
  }

  /** Decoding a tagged dictionary. */
  lemma ObjectDecoding(reg: Registry, cls: string, fields: seq<Field>)
    requires !Has(fields, TypeKey())
    ensures DeserializeAny(reg, Dict([Field(TypeKey(), Str(cls))] + fields)) ==
      if cls == ArrayTag() then DecodeArray(reg, [Field(TypeKey(), Str(cls))] + fields)
      else if cls in reg.classes && Decoded(reg, fields).Some? then Construct(reg, cls, Decoded(reg, fields).value)
      else None
  {
    var all := [Field(TypeKey(), Str(cls))] + fields;
    assert all[0].name == TypeKey();
    assert Get(all, TypeKey()) == Some(Str(cls));
    hide DeserializeAny, ArgsDecode, KeywordArgs, WithoutTag, Decoded, Get, DecodeArray;
    TaggedDecoding(reg, cls, all);
    AnyTagged(reg, Field(TypeKey(), Str(cls)), fields);
    if Decoded(reg, fields).Some? { ArgsBehindTag(reg, Field(TypeKey(), Str(cls)), fields); }
  }

  lemma ObjectReturns(reg: Registry, cls: string, attrs: seq<Field>)
    requires DistinctNames(attrs) && !Has(attrs, TypeKey()) && (cls in reg.classes ==> Names(attrs) == reg.classes[cls])
    ensures Returns(reg, Obj(cls, attrs)) <==>
      cls in reg.classes && cls != ArrayTag() && forall i :: 0 <= i < |attrs| ==> Returns(reg, attrs[i].value)
  {
    ObjectEncoding(cls, attrs);
    SameNames(attrs, TypeKey());
    ObjectDecoding(reg, cls, Encoded(attrs));
    FieldsReturn(reg, attrs);
    hide SerializeAny, DeserializeAny;
    var dec := Decoded(reg, Encoded(attrs));
    if dec.Some? { assert Names(dec.value) == Names(attrs); }
  }

  /** Decoding an encoded value gives the value back, whatever keys its dictionaries
      use and however deep it nests, exactly if its objects are registered. */
  lemma {:induction false} RoundTrip(reg: Registry, v: Value)
    requires Shaped(reg, v)
    ensures Returns(reg, v) <==> Registered(reg, v)
    decreases v
  {
    match v
    case Dict(fields) =>
      forall i | 0 <= i < |fields| ensures Returns(reg, fields[i].value) <==> Registered(reg, fields[i].value) {
        RoundTrip(reg, fields[i].value);
      }
      hide Returns;
      DictReturns(reg, fields);
    case List(items) =>
      forall i | 0 <= i < |items| ensures Returns(reg, items[i]) <==> Registered(reg, items[i]) { RoundTrip(reg, items[i]); }
      hide Returns;
      ListReturns(reg, items);
    case Tuple(items) =>
      forall i | 0 <= i < |items| ensures Returns(reg, items[i]) <==> Registered(reg, items[i]) { RoundTrip(reg, items[i]); }
      hide Returns;
      ListReturns(reg, items);
    case Arr(dtype, buffer) => ArrayReturns(reg, dtype, buffer);
    case Obj(cls, attrs) =>
      forall i | 0 <= i < |attrs| ensures Returns(reg, attrs[i].value) <==> Registered(reg, attrs[i].value) {
        RoundTrip(reg, attrs[i].value);
      }
      hide Returns;
      ObjectReturns(reg, cls, attrs);
    case _ =>
  }

  /** A reply whose class nobody registered, and a registered class that is called
      like the array tag: neither comes back. */
  lemma ObjectsLost()
    ensures var reg := Registry(map["Reply" := []], map[]);
      Returns(reg, Obj("Reply", [])) && !Returns(reg, Obj("Abort", []))
    ensures !Returns(Registry(map[ArrayTag() := []], map[]), Obj(ArrayTag(), []))
  {
    var reg := Registry(map["Reply" := []], map[]);
    ObjectReturns(reg, "Reply", []);
    assert "Reply"[2] != "Abort"[2] && "Reply"[0] != ArrayTag()[0];
    ObjectReturns(reg, "Abort", []);
    ObjectReturns(Registry(map[ArrayTag() := []], map[]), ArrayTag(), []);
  }

  // ---- the loops that fill the dictionaries ------------------------------------------------

  /** An object's dictionary, one attribute at a time. */
  method SerializeObject(cls: string, attrs: seq<Field>) returns (d: seq<Field>)
    ensures Dict(d) == SerializeAny(Obj(cls, attrs))
  {
    ghost var enc := Encoded(attrs);
    d := [Field(TypeKey(), Str(cls))];
    for k := 0 to |attrs|
      invariant PutAll(d, enc[k..]) == PutAll([Field(TypeKey(), Str(cls))], enc)
    {
      assert enc[k..][1..] == enc[k + 1..];
      d := Put(d, attrs[k].name, SerializeAny(attrs[k].value));
    }
  }

  lemma WithoutTagStep(fields: seq<Field>, k: nat)
    requires k < |fields|
    ensures WithoutTag(fields[k..]) == (if fields[k].name == TypeKey() then [] else [fields[k]]) + WithoutTag(fields[k + 1..])
  {
    assert fields[k..][1..] == fields[k + 1..];
  }

  /** An object's keyword arguments, one entry at a time. */
  method DeserializeObject(reg: Registry, cls: string, fields: seq<Field>) returns (r: Option<Value>)
    requires Has(fields, TypeKey()) && Get(fields, TypeKey()) == Some(Str(cls))
    ensures r == DeserializeAny(reg, Dict(fields))
  {
    TaggedDecoding(reg, cls, fields);
    hide DeserializeAny, WithoutTag, Get, DecodeArray, Has, TypeKey, ArrayTag, KeywordArgs;
    if cls == ArrayTag() { return DecodeArray(reg, fields); }
    if cls !in reg.classes { return None; }
    var kwargs := [];
    assert Collected(reg, fields, 0, kwargs) by { assert KeywordArgs(reg, fields)[0..] == KeywordArgs(reg, fields); }
    hide Collected, ArgsDecode;
    for k := 0 to |fields|
      invariant Collected(reg, fields, k, kwargs)
    {
      if fields[k].name == TypeKey() {
        CollectTag(reg, fields, k, kwargs);
      } else {
        var v := DeserializeAny(reg, fields[k].value);
        if v.None? {
          Undecodable(reg, fields, k);
          return None;
        }
        CollectOne(reg, fields, k, kwargs, v.value);
        kwargs := kwargs + [Field(fields[k].name, v.value)];
      }
    }
    CollectedAll(reg, fields, kwargs);
    r := Construct(reg, cls, kwargs);
  }

  /** The keyword arguments of the first k entries. */
  ghost predicate Collected(reg: Registry, fields: seq<Field>, k: nat, kwargs: seq<Field>)
    requires k <= |fields|
  {
    && (forall i :: 0 <= i < k && fields[i].name != TypeKey() ==> DeserializeAny(reg, fields[i].value).Some?)
    && kwargs + WithoutTag(KeywordArgs(reg, fields)[k..]) == WithoutTag(KeywordArgs(reg, fields))
  }

  lemma CollectTag(reg: Registry, fields: seq<Field>, k: nat, kwargs: seq<Field>)
    requires k < |fields| && fields[k].name == TypeKey() && Collected(reg, fields, k, kwargs)
    ensures Collected(reg, fields, k + 1, kwargs)
  {
    hide DeserializeAny, TypeKey, KeywordArgs;
    WithoutTagStep(KeywordArgs(reg, fields), k);
    hide WithoutTag;
    assert [] + WithoutTag(KeywordArgs(reg, fields)[k + 1..]) == WithoutTag(KeywordArgs(reg, fields)[k + 1..]);
  }

  lemma CollectOne(reg: Registry, fields: seq<Field>, k: nat, kwargs: seq<Field>, v: Value)
    requires k < |fields| && fields[k].name != TypeKey() && DeserializeAny(reg, fields[k].value) == Some(v)
    requires Collected(reg, fields, k, kwargs)
    ensures Collected(reg, fields, k + 1, kwargs + [Field(fields[k].name, v)])
  {
    hide DeserializeAny, TypeKey, KeywordArgs;
    var all := KeywordArgs(reg, fields);
    WithoutTagStep(all, k);
    hide WithoutTag;
    assert all[k] == Field(fields[k].name, v);
    assert kwargs + ([all[k]] + WithoutTag(all[k + 1..])) == (kwargs + [all[k]]) + WithoutTag(all[k + 1..]);
  }

  lemma CollectedAll(reg: Registry, fields: seq<Field>, kwargs: seq<Field>)
    requires Collected(reg, fields, |fields|, kwargs)
    ensures ArgsDecode(reg, fields) && kwargs == WithoutTag(KeywordArgs(reg, fields))
  {
    hide DeserializeAny, TypeKey, KeywordArgs;
    var all := KeywordArgs(reg, fields);
    assert all[|fields|..] == [];
    assert kwargs + [] == kwargs;
  }

  lemma Undecodable(reg: Registry, fields: seq<Field>, k: nat)
    requires k < |fields| && fields[k].name != TypeKey() && DeserializeAny(reg, fields[k].value).None?
    ensures !ArgsDecode(reg, fields)
  {
  }
}
