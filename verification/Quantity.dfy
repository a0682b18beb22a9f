/** The REST gateway's marshaler for Kubernetes quantities.

    protojson drops the content of every Quantity: it writes `{}` and reads back an
    uninitialised value. Marshal repairs its output and Unmarshal its result with a walk over
    the message descriptor. The walks follow singular and repeated sub-messages and skip maps.
 */
module Quantity {
  import opened Kube

  datatype Json = Null | Text(text: string) | Arr(items: seq<Json>) | Object(m: map<string, Json>)

  datatype FieldType =
    | Scalar
    | Amount
    | AmountMap
    | One(typ: string)
    | Many(typ: string)
    | Dict(typ: string)

  /** Message type name to its fields by JSON name; types may refer to each other and to themselves. */
  type Schema = map<string, map<string, FieldType>>

  /** `Plain` is everything protojson handles alone, carried as its JSON form. */
  datatype Value =
    | Plain(json: Json)
    | Qty(q: Option<int>)
    | QtyMap(qs: map<string, int>)
    | Sub(sub: Option<Msg>)
    | List(msgs: seq<Msg>)
    | Table(rows: map<string, Msg>)

  datatype Msg = Msg(typ: string, fields: map<string, Value>)

  /** Quantity.MarshalJSON and UnmarshalJSON on the text between the quotes. */
  datatype Codec = Codec(show: int -> string, parse: string -> Option<int>)

  ghost predicate Inverse(c: Codec) {
    forall q :: c.parse(c.show(q)) == Some(q)
  }

  predicate Closed(sc: Schema) {
    forall t, k :: t in sc && k in sc[t] ==>
      (sc[t][k].One? || sc[t][k].Many? || sc[t][k].Dict?) ==> sc[t][k].typ in sc
  }

  /** The message has exactly the fields of its type, each of the declared shape. */
  predicate WellTyped(sc: Schema, m: Msg)
    decreases m
  {
    && m.typ in sc
    && m.fields.Keys == sc[m.typ].Keys
    && forall k :: k in m.fields ==> WellTypedValue(sc, sc[m.typ][k], m.fields[k])
  }

  predicate WellTypedValue(sc: Schema, t: FieldType, v: Value)
    decreases v
  {
    match t
    case Scalar => v.Plain?
    case Amount => v.Qty?
    case AmountMap => v.QtyMap?
    case One(typ) => v.Sub? && (v.sub.Some? ==> v.sub.value.typ == typ && WellTyped(sc, v.sub.value))
    case Many(typ) =>
      v.List? && forall i :: 0 <= i < |v.msgs| ==> v.msgs[i].typ == typ && WellTyped(sc, v.msgs[i])
    case Dict(typ) =>
      v.Table? && forall k :: k in v.rows ==> v.rows[k].typ == typ && WellTyped(sc, v.rows[k])
  }

  // ---------- protojson, with EmitUnpopulated set ----------

  function Encode(m: Msg): Json
    decreases m
  {
    Object(map k | k in m.fields :: EncodeValue(m.fields[k]))
  }

  function EncodeValue(v: Value): Json
    decreases v
  {
    match v
    case Plain(j) => j
    case Qty(q) => if q.Some? then Object(map[]) else Null
    case QtyMap(qs) => Object(map k | k in qs :: Object(map[]))
    case Sub(s) => if s.Some? then Encode(s.value) else Null
    case List(ms) => Arr(seq(|ms|, i requires 0 <= i < |ms| => Encode(ms[i])))
    case Table(rows) => Object(map k | k in rows :: Encode(rows[k]))
  }

  function Default(t: FieldType): Value {
    match t
    case Scalar => Plain(Null)
    case Amount => Qty(None)
    case AmountMap => QtyMap(map[])
    case One(_) => Sub(None)
    case Many(_) => List([])
    case Dict(_) => Table(map[])
  }

  function EmptyMsg(sc: Schema, typ: string): Msg {
    Msg(typ, if typ in sc then map k | k in sc[typ] :: Default(sc[typ][k]) else map[])
  }

  /** A Quantity comes back uninitialised, which reads as zero, whatever its JSON object holds. */
  function Decode(sc: Schema, typ: string, j: Json): Msg
    decreases j, 0
  {
    if typ !in sc || !j.Object? then EmptyMsg(sc, typ)
    else Msg(typ, map k | k in sc[typ] ::
           if k in j.m then DecodeValue(sc, sc[typ][k], j.m[k]) else Default(sc[typ][k]))
  }

  function DecodeValue(sc: Schema, t: FieldType, j: Json): Value
    decreases j, 1
  {
    match t
    case Scalar => Plain(j)
    case Amount => if j.Object? then Qty(Some(0)) else Qty(None)
    case AmountMap => if j.Object? then QtyMap(map k | k in j.m :: 0) else Default(t)
    case One(typ) => if j.Object? then Sub(Some(Decode(sc, typ, j))) else Sub(None)
    case Many(typ) =>
      if j.Arr? then List(seq(|j.items|, i requires 0 <= i < |j.items| => Decode(sc, typ, j.items[i])))
      else Default(t)
    case Dict(typ) => if j.Object? then Table(map k | k in j.m :: Decode(sc, typ, j.m[k])) else Default(t)
  }

  // ---------- what the two walks compute ----------

  function FieldsOf(sc: Schema, m: Msg): map<string, FieldType> {
    if m.typ in sc then sc[m.typ] else map[]
  }

  /** Reading an unset field yields the field's default. */
  function Get(sc: Schema, m: Msg, k: string): Value
    requires k in FieldsOf(sc, m)
  {
    if k in m.fields then m.fields[k] else Default(FieldsOf(sc, m)[k])
  }

  function SetAmounts(sc: Schema, m: Msg): set<string> {
    set k | k in FieldsOf(sc, m) && FieldsOf(sc, m)[k].Amount? && Get(sc, m, k).Qty? && Get(sc, m, k).q.Some?
  }

  function AmountJson(c: Codec, q: int): Json {
    Object(map["string" := Text(c.show(q))])
  }

  function SubOr(sc: Schema, v: Value, typ: string): Msg {
    if v.Sub? && v.sub.Some? then v.sub.value else EmptyMsg(sc, typ)
  }

  /** The JSON tree after walkMessageForMarshal. */
  function FixJson(c: Codec, sc: Schema, m: Msg, j: Json): Json
    requires j.Object?
    decreases j, 1
  {
    Object(map k | k in j.m.Keys + SetAmounts(sc, m) :: FixJsonMember(c, sc, m, j, k))
  }

  function FixJsonMember(c: Codec, sc: Schema, m: Msg, j: Json, k: string): Json
    requires j.Object? && (k in j.m || k in SetAmounts(sc, m))
    decreases j, 0
  {
    if k in SetAmounts(sc, m) then AmountJson(c, Get(sc, m, k).q.value)
    else if k in FieldsOf(sc, m) then FixJsonValue(c, sc, FieldsOf(sc, m)[k], Get(sc, m, k), j.m[k])
    else j.m[k]
  }

  function FixJsonValue(c: Codec, sc: Schema, t: FieldType, v: Value, j: Json): Json
    decreases j, 2
  {
    if t.One? && j.Object? then FixJson(c, sc, SubOr(sc, v, t.typ), j)
    else if t.Many? && j.Arr? && v.List? then
      Arr(seq(|j.items|, i requires 0 <= i < |j.items| =>
        if i < |v.msgs| && j.items[i].Object? then FixJson(c, sc, v.msgs[i], j.items[i]) else j.items[i]))
    else j
  }

  function AmountText(j: map<string, Json>, k: string): Option<string> {
    if k in j && j[k].Object? && "string" in j[k].m && j[k].m["string"].Text? then Some(j[k].m["string"].text)
    else None
  }

  /** setQuantityField: the field is materialised first, then parsed into. */
  function SetAmount(c: Codec, v: Value, text: string): Value {
    if c.parse(text).Some? then Qty(c.parse(text))
    else if v.Qty? && v.q.Some? then v
    else Qty(Some(0))
  }

  /** The message after walkMessage. */
  function FixMsg(c: Codec, sc: Schema, m: Msg, j: Json): Msg
    requires j.Object?
    decreases j, 1
  {
    Msg(m.typ, map k | k in m.fields :: FixMsgField(c, sc, m, j, k))
  }

  function FixMsgField(c: Codec, sc: Schema, m: Msg, j: Json, k: string): Value
    requires j.Object? && k in m.fields
    decreases j, 0
  {
    if k in FieldsOf(sc, m) && k in j.m then
      FixMsgValue(c, sc, FieldsOf(sc, m)[k], m.fields[k], AmountText(j.m, k), j.m[k])
    else m.fields[k]
  }

  /** An unset sub-message is left alone. (The code would ask for a mutable field of a read-only empty
      message where the JSON has an object and the field is unset; after Unmarshal there is no such
      field, since the decoder sets it from that very object.) */
  function FixMsgValue(c: Codec, sc: Schema, t: FieldType, v: Value, text: Option<string>, j: Json): Value
    decreases j, 2
  {
    if t.Amount? && text.Some? then SetAmount(c, v, text.value)
    else if t.One? && j.Object? && v.Sub? && v.sub.Some? then Sub(Some(FixMsg(c, sc, v.sub.value, j)))
    else if t.Many? && j.Arr? && v.List? then
      List(seq(|v.msgs|, i requires 0 <= i < |v.msgs| =>
        if i < |j.items| && j.items[i].Object? then FixMsg(c, sc, v.msgs[i], j.items[i]) else v.msgs[i]))
    else v
  }

  function MarshalSpec(c: Codec, sc: Schema, m: Msg): Json {
    FixJson(c, sc, m, Encode(m))
  }

  function UnmarshalSpec(c: Codec, sc: Schema, typ: string, j: Json): Msg {
    if j.Object? then FixMsg(c, sc, Decode(sc, typ, j), j) else Decode(sc, typ, j)
  }

  /** A field of what a client's JSON comes to. */
  function Received(c: Codec, sc: Schema, t: FieldType, j: map<string, Json>, k: string): Value {
    if k in j then FixMsgValue(c, sc, t, DecodeValue(sc, t, j[k]), AmountText(j, k), j[k]) else Default(t)
  }

  lemma FieldReceived(c: Codec, sc: Schema, typ: string, j: Json, k: string)
    requires j.Object? && typ in sc && k in sc[typ]
    ensures var r := UnmarshalSpec(c, sc, typ, j); k in r.fields && r.fields[k] == Received(c, sc, sc[typ][k], j.m, k)
  {
    var d := Decode(sc, typ, j);
    assert d.typ == typ && k in d.fields && FieldsOf(sc, d) == sc[typ];
    assert FixMsg(c, sc, d, j).fields[k] == FixMsgField(c, sc, d, j, k);
    assert d.fields[k] == if k in j.m then DecodeValue(sc, sc[typ][k], j.m[k]) else Default(sc[typ][k]);
  }

  /** A Quantity that the client's JSON leaves out, or gives as anything but an object, stays unset; one
      that it gives has the value of its text. */
  lemma AmountsAsSent(c: Codec, sc: Schema, typ: string, j: Json, k: string)
    requires j.Object? && typ in sc && k in sc[typ] && sc[typ][k].Amount?
    ensures var r := UnmarshalSpec(c, sc, typ, j);
            && k in r.fields && r.fields[k].Qty?
            && (r.fields[k].q.Some? <==> k in j.m && j.m[k].Object?)
            && (k in j.m && j.m[k].Object? && "string" in j.m[k].m && j.m[k].m["string"].Text? ==>
                  var text := j.m[k].m["string"].text;
                  c.parse(text).Some? ==> r.fields[k].q == c.parse(text))
  {
    FieldReceived(c, sc, typ, j, k);
  }

  /** A sub-message is what its own JSON comes to, so the same holds at every depth. */
  lemma SubMessagesAsSent(c: Codec, sc: Schema, typ: string, j: Json, k: string)
    requires j.Object? && typ in sc && k in sc[typ]
    ensures k in UnmarshalSpec(c, sc, typ, j).fields
    ensures var v, t := UnmarshalSpec(c, sc, typ, j).fields[k], sc[typ][k];
            && (t.One? && k in j.m && j.m[k].Object? ==> v == Sub(Some(UnmarshalSpec(c, sc, t.typ, j.m[k]))))
            && (t.One? && (k !in j.m || !j.m[k].Object?) ==> v == Sub(None))
            && (t.Many? && k in j.m && j.m[k].Arr? ==>
                  && v.List? && |v.msgs| == |j.m[k].items|
                  && forall i :: 0 <= i < |j.m[k].items| ==> v.msgs[i] == UnmarshalSpec(c, sc, t.typ, j.m[k].items[i]))
  {
    FieldReceived(c, sc, typ, j, k);
  }

  // ---------- what survives ----------

  /** Every Quantity set to zero: what protojson alone brings back. */
  function Blank(m: Msg): Msg
    decreases m
  {
    Msg(m.typ, map k | k in m.fields :: BlankValue(m.fields[k]))
  }

  function BlankValue(v: Value): Value
    decreases v
  {
    match v
    case Plain(_) => v
    case Qty(q) => if q.Some? then Qty(Some(0)) else v
    case QtyMap(qs) => QtyMap(map k | k in qs :: 0)
    case Sub(s) => if s.Some? then Sub(Some(Blank(s.value))) else v
    case List(ms) => List(seq(|ms|, i requires 0 <= i < |ms| => Blank(ms[i])))
    case Table(rows) => Table(map k | k in rows :: Blank(rows[k]))
  }

  /** Only the quantities below a map field set to zero. */
  function Survives(m: Msg): Msg
    decreases m
  {
    Msg(m.typ, map k | k in m.fields :: SurvivesValue(m.fields[k]))
  }

  function SurvivesValue(v: Value): Value
    decreases v
  {
    match v
    case Plain(_) => v
    case Qty(_) => v
    case QtyMap(_) => BlankValue(v)
    case Sub(s) => if s.Some? then Sub(Some(Survives(s.value))) else v
    case List(ms) => List(seq(|ms|, i requires 0 <= i < |ms| => Survives(ms[i])))
    case Table(_) => BlankValue(v)
  }

  /** Marshal's output member by member. */
  lemma MarshalledMember(c: Codec, sc: Schema, m: Msg, k: string)
    requires WellTyped(sc, m) && k in m.fields
    ensures var j, t, v := MarshalSpec(c, sc, m), sc[m.typ][k], m.fields[k];
            && k in j.m
            && (t.Amount? ==> v.Qty? && j.m[k] == if v.q.Some? then AmountJson(c, v.q.value) else Null)
            && (!t.Amount? ==> j.m[k] == FixJsonValue(c, sc, t, v, EncodeValue(v)))
  {
    var e, t, v := Encode(m), sc[m.typ][k], m.fields[k];
    assert WellTypedValue(sc, t, v);
    assert e.m[k] == EncodeValue(v);
    assert Get(sc, m, k) == v;
    assert k in SetAmounts(sc, m) <==> t.Amount? && v.q.Some?;
    var j := FixJson(c, sc, m, e);
    assert j.m[k] == FixJsonMember(c, sc, m, e, k);
    if t.Amount? && v.q.None? {
      assert j.m[k] == FixJsonValue(c, sc, t, v, Null) == Null;
    }
  }

  lemma {:induction false} DecodeMarshalled(c: Codec, sc: Schema, m: Msg)
    requires Closed(sc) && WellTyped(sc, m)
    ensures Decode(sc, m.typ, MarshalSpec(c, sc, m)) == Blank(m)
    decreases m
  {
    var j := MarshalSpec(c, sc, m);
    forall k | k in m.fields
      ensures k in j.m && DecodeValue(sc, sc[m.typ][k], j.m[k]) == BlankValue(m.fields[k])
    {
      MarshalledMember(c, sc, m, k);
      if !sc[m.typ][k].Amount? {
        DecodeMarshalledValue(c, sc, sc[m.typ][k], m.fields[k]);
      }
    }
  }

  lemma {:induction false} DecodeMarshalledValue(c: Codec, sc: Schema, t: FieldType, v: Value)
    requires Closed(sc) && WellTypedValue(sc, t, v) && !t.Amount?
    ensures DecodeValue(sc, t, FixJsonValue(c, sc, t, v, EncodeValue(v))) == BlankValue(v)
    decreases v
  {
    match v
    case Sub(s) => if s.Some? { DecodeMarshalled(c, sc, s.value); }
    case List(ms) =>
      forall i | 0 <= i < |ms| ensures Decode(sc, t.typ, MarshalSpec(c, sc, ms[i])) == Blank(ms[i]) {
        DecodeMarshalled(c, sc, ms[i]);
      }
      assert DecodeValue(sc, t, FixJsonValue(c, sc, t, v, EncodeValue(v))).msgs == BlankValue(v).msgs;
    case Table(rows) =>
      forall k | k in rows ensures Decode(sc, t.typ, Encode(rows[k])) == Blank(rows[k]) {
        DecodeEncoded(sc, rows[k]);
      }
    case _ =>
  }

  lemma {:induction false} DecodeEncoded(sc: Schema, m: Msg)
    requires WellTyped(sc, m)
    ensures Decode(sc, m.typ, Encode(m)) == Blank(m)
    decreases m
  {
    forall k | k in m.fields
      ensures DecodeValue(sc, sc[m.typ][k], EncodeValue(m.fields[k])) == BlankValue(m.fields[k])
    {
      DecodeEncodedValue(sc, sc[m.typ][k], m.fields[k]);
    }
  }

  lemma {:induction false} DecodeEncodedValue(sc: Schema, t: FieldType, v: Value)
    requires WellTypedValue(sc, t, v)
    ensures DecodeValue(sc, t, EncodeValue(v)) == BlankValue(v)
    decreases v
  {
    match v
    case Sub(s) => if s.Some? { DecodeEncoded(sc, s.value); }
    case List(ms) =>
      forall i | 0 <= i < |ms| ensures Decode(sc, t.typ, Encode(ms[i])) == Blank(ms[i]) {
        DecodeEncoded(sc, ms[i]);
      }
      assert DecodeValue(sc, t, EncodeValue(v)).msgs == BlankValue(v).msgs;
    case Table(rows) =>
      forall k | k in rows ensures Decode(sc, t.typ, Encode(rows[k])) == Blank(rows[k]) {
        DecodeEncoded(sc, rows[k]);
      }
    case _ =>
  }

  lemma AmountRepaired(c: Codec, v: Value, j: map<string, Json>, k: string)
    requires Inverse(c) && v.Qty? && k in j && j[k] == if v.q.Some? then AmountJson(c, v.q.value) else Null
    ensures AmountText(j, k) == if v.q.Some? then Some(c.show(v.q.value)) else None
    ensures v.q.Some? ==> SetAmount(c, BlankValue(v), c.show(v.q.value)) == v
  {
  }

  lemma {:induction false} RepairMarshalled(c: Codec, sc: Schema, m: Msg)
    requires Closed(sc) && Inverse(c) && WellTyped(sc, m)
    ensures FixMsg(c, sc, Blank(m), MarshalSpec(c, sc, m)) == Survives(m)
    decreases m, 1
  {
    forall k | k in m.fields
      ensures FixMsgField(c, sc, Blank(m), MarshalSpec(c, sc, m), k) == SurvivesValue(m.fields[k])
    {
      RepairMarshalledField(c, sc, m, k);
    }
  }

  lemma {:induction false} RepairMarshalledField(c: Codec, sc: Schema, m: Msg, k: string)
    requires Closed(sc) && Inverse(c) && WellTyped(sc, m) && k in m.fields
    ensures FixMsgField(c, sc, Blank(m), MarshalSpec(c, sc, m), k) == SurvivesValue(m.fields[k])
    decreases m, 0
  {
    MarshalledMember(c, sc, m, k);
    var j := MarshalSpec(c, sc, m);
    if sc[m.typ][k].Amount? {
      AmountRepaired(c, m.fields[k], j.m, k);
    } else {
      assert WellTypedValue(sc, sc[m.typ][k], m.fields[k]);
      RepairMarshalledValue(c, sc, sc[m.typ][k], m.fields[k], AmountText(j.m, k));
    }
  }

  lemma {:induction false} RepairMarshalledValue(c: Codec, sc: Schema, t: FieldType, v: Value, text: Option<string>)
    requires Closed(sc) && Inverse(c) && WellTypedValue(sc, t, v) && !t.Amount?
    ensures FixMsgValue(c, sc, t, BlankValue(v), text, FixJsonValue(c, sc, t, v, EncodeValue(v))) == SurvivesValue(v)
    decreases v, 2
  {
    match v
    case Sub(s) => if s.Some? { RepairMarshalled(c, sc, s.value); }
    case List(ms) =>
      forall i | 0 <= i < |ms| ensures FixMsg(c, sc, Blank(ms[i]), MarshalSpec(c, sc, ms[i])) == Survives(ms[i]) {
        RepairMarshalled(c, sc, ms[i]);
      }
      var b, j := BlankValue(v), FixJsonValue(c, sc, t, v, EncodeValue(v));
      assert FixMsgValue(c, sc, t, b, text, j).msgs == SurvivesValue(v).msgs;
    case _ =>
  }

  /** Unmarshal after Marshal restores the message exactly, at any depth and through recursive
      types, except that quantities below a map field come back as zero. */
  lemma RoundTrip(c: Codec, sc: Schema, m: Msg)
    requires Closed(sc) && Inverse(c) && WellTyped(sc, m)
    ensures UnmarshalSpec(c, sc, m.typ, MarshalSpec(c, sc, m)) == Survives(m)
  {
    DecodeMarshalled(c, sc, m);
    RepairMarshalled(c, sc, m);
  }

  /** No quantity other than zero lies below a map field. */
  predicate MapsHoldZero(m: Msg, belowMap: bool)
    decreases m
  {
    forall k :: k in m.fields ==> MapsHoldZeroValue(m.fields[k], belowMap)
  }

  predicate MapsHoldZeroValue(v: Value, belowMap: bool)
    decreases v
  {
    match v
    case Plain(_) => true
    case Qty(q) => belowMap && q.Some? ==> q.value == 0
    case QtyMap(qs) => forall k :: k in qs ==> qs[k] == 0
    case Sub(s) => s.Some? ==> MapsHoldZero(s.value, belowMap)
    case List(ms) => forall i :: 0 <= i < |ms| ==> MapsHoldZero(ms[i], belowMap)
    case Table(rows) => forall k :: k in rows ==> MapsHoldZero(rows[k], true)
  }

  lemma {:induction false} BlankIsIdentity(m: Msg)
    ensures Blank(m) == m <==> MapsHoldZero(m, true)
    decreases m
  {
    forall k | k in m.fields
      ensures BlankValue(m.fields[k]) == m.fields[k] <==> MapsHoldZeroValue(m.fields[k], true)
    {
      BlankValueIsIdentity(m.fields[k]);
    }
    assert Blank(m).fields == m.fields <==> forall k :: k in m.fields ==> Blank(m).fields[k] == m.fields[k];
  }

  lemma {:induction false} BlankValueIsIdentity(v: Value)
    ensures BlankValue(v) == v <==> MapsHoldZeroValue(v, true)
    decreases v
  {
    match v
    case Sub(s) => if s.Some? { BlankIsIdentity(s.value); }
    case List(ms) =>
      forall i | 0 <= i < |ms| ensures Blank(ms[i]) == ms[i] <==> MapsHoldZero(ms[i], true) {
        BlankIsIdentity(ms[i]);
      }
      var b := BlankValue(v).msgs;
      assert b == ms <==> forall i :: 0 <= i < |ms| ==> b[i] == ms[i];
    case Table(rows) =>
      forall k | k in rows ensures Blank(rows[k]) == rows[k] <==> MapsHoldZero(rows[k], true) {
        BlankIsIdentity(rows[k]);
      }
      var b := BlankValue(v).rows;
      assert b == rows <==> forall k :: k in rows ==> b[k] == rows[k];
    case QtyMap(qs) =>
      var b := BlankValue(v).qs;
      assert b == qs <==> forall k :: k in qs ==> b[k] == qs[k];
    case _ =>
  }

  lemma {:induction false} SurvivesIsIdentity(m: Msg)
    ensures Survives(m) == m <==> MapsHoldZero(m, false)
    decreases m
  {
    forall k | k in m.fields
      ensures SurvivesValue(m.fields[k]) == m.fields[k] <==> MapsHoldZeroValue(m.fields[k], false)
    {
      SurvivesValueIsIdentity(m.fields[k]);
    }
    assert Survives(m).fields == m.fields <==> forall k :: k in m.fields ==> Survives(m).fields[k] == m.fields[k];
  }

  lemma {:induction false} SurvivesValueIsIdentity(v: Value)
    ensures SurvivesValue(v) == v <==> MapsHoldZeroValue(v, false)
    decreases v
  {
    match v
    case Sub(s) => if s.Some? { SurvivesIsIdentity(s.value); }
    case List(ms) =>
      forall i | 0 <= i < |ms| ensures Survives(ms[i]) == ms[i] <==> MapsHoldZero(ms[i], false) {
        SurvivesIsIdentity(ms[i]);
      }
      var b := SurvivesValue(v).msgs;
      assert b == ms <==> forall i :: 0 <= i < |ms| ==> b[i] == ms[i];
    case Table(_) => BlankValueIsIdentity(v);
    case QtyMap(_) => BlankValueIsIdentity(v);
    case _ =>
  }

  /** The round trip is the identity exactly on the messages with no non-zero quantity below a map. */
  lemma RoundTripExact(c: Codec, sc: Schema, m: Msg)
    requires Closed(sc) && Inverse(c) && WellTyped(sc, m)
    ensures UnmarshalSpec(c, sc, m.typ, MarshalSpec(c, sc, m)) == m <==> MapsHoldZero(m, false)
  {
    RoundTrip(c, sc, m);
    SurvivesIsIdentity(m);
  }

  // ---------- the walks as they run ----------

  lemma FixJsonByMembers(c: Codec, sc: Schema, m: Msg, j: Json, out: map<string, Json>)
    requires j.Object?
    requires forall k :: k in out <==> k in j.m || k in SetAmounts(sc, m)
    requires forall k :: k in out ==> out[k] == FixJsonMember(c, sc, m, j, k)
    ensures FixJson(c, sc, m, j) == Object(out)
  {
    assert FixJson(c, sc, m, j).m.Keys == out.Keys;
  }

  /** walkMessageForMarshal: one pass over the message's fields, updating the JSON object. The
      recursion descends the JSON tree, so it ends even on recursive message types. */
  method WalkForMarshal(c: Codec, sc: Schema, m: Msg, j: Json) returns (r: Json)
    requires j.Object?
    ensures r == FixJson(c, sc, m, j)
    decreases j, 1
  {
    var out, rest := j.m, FieldsOf(sc, m).Keys;
    ghost var amounts := SetAmounts(sc, m);
    while rest != {}
      invariant rest <= FieldsOf(sc, m).Keys
      invariant forall k :: k in out <==> k in j.m || (k in amounts && k !in rest)
      invariant forall k :: k in out ==> out[k] == if k in rest then j.m[k] else FixJsonMember(c, sc, m, j, k)
      decreases |rest|
    {
      var k :| k in rest;
      var member := WalkMemberForMarshal(c, sc, m, j, k);
      if member.Some? {
        out := out[k := member.value];
      }
      rest := rest - {k};
    }
    FixJsonByMembers(c, sc, m, j, out);
    r := Object(out);
  }

  method WalkMemberForMarshal(c: Codec, sc: Schema, m: Msg, j: Json, k: string) returns (r: Option<Json>)
    requires j.Object? && k in FieldsOf(sc, m)
    ensures r.Some? <==> k in j.m || k in SetAmounts(sc, m)
    ensures r.Some? ==> r.value == FixJsonMember(c, sc, m, j, k)
    decreases j, 0
  {
    var t, v := FieldsOf(sc, m)[k], Get(sc, m, k);
    if t.Amount? && v.Qty? && v.q.Some? {
      r := Some(AmountJson(c, v.q.value));
    } else if k in j.m {
      var nested := WalkFieldForMarshal(c, sc, t, v, j.m[k]);
      r := Some(nested);
    } else {
      r := None;
    }
  }

  method WalkFieldForMarshal(c: Codec, sc: Schema, t: FieldType, v: Value, j: Json) returns (r: Json)
    ensures r == FixJsonValue(c, sc, t, v, j)
    decreases j, 2
  {
    if t.Many? && j.Arr? && v.List? {
      var items := WalkItemsForMarshal(c, sc, v.msgs, j.items);
      r := Arr(items);
    } else if t.One? && j.Object? {
      r := WalkForMarshal(c, sc, SubOr(sc, v, t.typ), j);
    } else {
      r := j;
    }
  }

  method WalkItemsForMarshal(c: Codec, sc: Schema, msgs: seq<Msg>, items: seq<Json>) returns (r: seq<Json>)
    ensures |r| == |items|
    ensures forall i :: 0 <= i < |items| ==>
              r[i] == if i < |msgs| && items[i].Object? then FixJson(c, sc, msgs[i], items[i]) else items[i]
    decreases items
  {
    r := items;
    var i := 0;
    while i < |msgs| && i < |items|
      invariant 0 <= i <= |items| && i <= |msgs| && |r| == |items|
      invariant forall h :: 0 <= h < |items| ==>
                  r[h] == if h < i && items[h].Object? then FixJson(c, sc, msgs[h], items[h]) else items[h]
    {
      if items[i].Object? {
        var item := WalkForMarshal(c, sc, msgs[i], items[i]);
        r := r[i := item];
      }
      i := i + 1;
    }
  }

  /** walkMessage: the mirror pass, updating the message from the JSON object. */
  method Walk(c: Codec, sc: Schema, m: Msg, j: Json) returns (r: Msg)
    requires j.Object?
    ensures r == FixMsg(c, sc, m, j)
    decreases j, 0
  {
    var fields, out := FieldsOf(sc, m), m.fields;
    var rest := m.fields.Keys * fields.Keys;
    while rest != {}
      invariant rest <= m.fields.Keys * fields.Keys
      invariant out.Keys == m.fields.Keys
      invariant forall k :: k in out ==> out[k] == if k in rest then m.fields[k] else FixMsgField(c, sc, m, j, k)
      decreases |rest|
    {
      var k :| k in rest;
      if k in j.m {
        var v := WalkField(c, sc, fields[k], out[k], AmountText(j.m, k), j.m[k]);
        out := out[k := v];
      }
      rest := rest - {k};
    }
    r := Msg(m.typ, out);
  }

  method WalkField(c: Codec, sc: Schema, t: FieldType, v: Value, text: Option<string>, j: Json) returns (r: Value)
    ensures r == FixMsgValue(c, sc, t, v, text, j)
    decreases j, 1
  {
    if t.Amount? && text.Some? {
      r := SetAmount(c, v, text.value);
    } else if t.Many? && j.Arr? && v.List? {
      var msgs := WalkItems(c, sc, v.msgs, j.items);
      r := List(msgs);
    } else if t.One? && j.Object? && v.Sub? && v.sub.Some? {
      var nested := Walk(c, sc, v.sub.value, j);
      r := Sub(Some(nested));
    } else {
      r := v;
    }
  }

  method WalkItems(c: Codec, sc: Schema, msgs: seq<Msg>, items: seq<Json>) returns (r: seq<Msg>)
    ensures |r| == |msgs|
    ensures forall i :: 0 <= i < |msgs| ==>
              r[i] == if i < |items| && items[i].Object? then FixMsg(c, sc, msgs[i], items[i]) else msgs[i]
    decreases items
  {
    r := msgs;
    var i := 0;
    while i < |msgs| && i < |items|
      invariant 0 <= i <= |items| && i <= |msgs| && |r| == |msgs|
      invariant forall h :: 0 <= h < |msgs| ==>
                  r[h] == if h < i && items[h].Object? then FixMsg(c, sc, msgs[h], items[h]) else msgs[h]
    {
      if items[i].Object? {
        var item := Walk(c, sc, msgs[i], items[i]);
        r := r[i := item];
      }
      i := i + 1;
    }
  }

  method Marshal(c: Codec, sc: Schema, m: Msg) returns (r: Json)
    ensures r == MarshalSpec(c, sc, m)
  {
    r := WalkForMarshal(c, sc, m, Encode(m));
  }

  method Unmarshal(c: Codec, sc: Schema, typ: string, j: Json) returns (r: Msg)
    ensures r == UnmarshalSpec(c, sc, typ, j)
  {
    r := Decode(sc, typ, j);
    if j.Object? {
      r := Walk(c, sc, r, j);
    }
  }

  // ---------- nothing but quantities changes ----------

  /** The message with every singular Quantity outside maps removed. */
  function Erase(m: Msg): Msg
    decreases m
  {
    Msg(m.typ, map k | k in m.fields :: EraseValue(m.fields[k]))
  }

  function EraseValue(v: Value): Value
    decreases v
  {
    match v
    case Qty(_) => Qty(None)
    case Sub(s) => if s.Some? then Sub(Some(Erase(s.value))) else v
    case List(ms) => List(seq(|ms|, i requires 0 <= i < |ms| => Erase(ms[i])))
    case _ => v
  }

  /** For any message and any JSON, matching or not, walkMessage changes Quantity fields only. (Where
      the JSON has an object for an unset sub-message, see `FixMsgValue`.) */
  lemma {:induction false} WalkChangesOnlyAmounts(c: Codec, sc: Schema, m: Msg, j: Json)
    requires j.Object? && WellTyped(sc, m)
    ensures Erase(FixMsg(c, sc, m, j)) == Erase(m)
    decreases m
  {
    forall k | k in m.fields && k in j.m
      ensures EraseValue(FixMsgValue(c, sc, sc[m.typ][k], m.fields[k], AmountText(j.m, k), j.m[k]))
           == EraseValue(m.fields[k])
    {
      assert WellTypedValue(sc, sc[m.typ][k], m.fields[k]);
      WalkValueChangesOnlyAmounts(c, sc, sc[m.typ][k], m.fields[k], AmountText(j.m, k), j.m[k]);
    }
  }

  lemma {:induction false} WalkValueChangesOnlyAmounts(c: Codec, sc: Schema, t: FieldType, v: Value,
                                                       text: Option<string>, j: Json)
    requires WellTypedValue(sc, t, v)
    ensures EraseValue(FixMsgValue(c, sc, t, v, text, j)) == EraseValue(v)
    decreases v
  {
    match v
    case Sub(s) => if s.Some? && j.Object? { WalkChangesOnlyAmounts(c, sc, s.value, j); }
    case List(ms) =>
      if j.Arr? {
        forall i | 0 <= i < |ms| && i < |j.items| && j.items[i].Object?
          ensures Erase(FixMsg(c, sc, ms[i], j.items[i])) == Erase(ms[i])
        {
          WalkChangesOnlyAmounts(c, sc, ms[i], j.items[i]);
        }
        var w := FixMsgValue(c, sc, t, v, text, j);
        assert EraseValue(w).msgs == EraseValue(v).msgs;
      }
    case _ =>
  }

  /** Two JSON trees for a message type that differ at most in the members holding quantities. */
  predicate SameButAmounts(sc: Schema, typ: string, j: Json, j': Json)
    decreases j, 0
  {
    if !j.Object? then j' == j
    else
      && j'.Object?
      && var fs := if typ in sc then sc[typ] else map[];
      && (forall k :: k in j'.m && k !in j.m ==> k in fs && fs[k].Amount?)
      && forall k :: k in j.m ==>
           && k in j'.m
           && if k in fs then SameMember(sc, fs[k], j.m[k], j'.m[k]) else j'.m[k] == j.m[k]
  }

  predicate SameMember(sc: Schema, t: FieldType, j: Json, j': Json)
    decreases j, 1
  {
    match t
    case Amount => true
    case One(typ) => SameButAmounts(sc, typ, j, j')
    case Many(typ) =>
      if j.Arr? then
        && j'.Arr? && |j'.items| == |j.items|
        && forall i :: 0 <= i < |j.items| ==> SameButAmounts(sc, typ, j.items[i], j'.items[i])
      else j' == j
    case _ => j' == j
  }

  lemma {:induction false} SameButAmountsReflexive(sc: Schema, typ: string, j: Json)
    ensures SameButAmounts(sc, typ, j, j)
    decreases j, 0
  {
    if j.Object? {
      var fs := if typ in sc then sc[typ] else map[];
      forall k | k in j.m && k in fs ensures SameMember(sc, fs[k], j.m[k], j.m[k]) {
        if fs[k].One? { SameButAmountsReflexive(sc, fs[k].typ, j.m[k]); }
        if fs[k].Many? && j.m[k].Arr? {
          forall i | 0 <= i < |j.m[k].items|
            ensures SameButAmounts(sc, fs[k].typ, j.m[k].items[i], j.m[k].items[i])
          {
            SameButAmountsReflexive(sc, fs[k].typ, j.m[k].items[i]);
          }
        }
      }
    }
  }

  /** For any JSON object, walkMessageForMarshal changes nothing but the quantity members. */
  lemma {:induction false} MarshalChangesOnlyAmounts(c: Codec, sc: Schema, m: Msg, j: Json)
    requires j.Object? && WellTyped(sc, m) && Closed(sc)
    ensures SameButAmounts(sc, m.typ, j, FixJson(c, sc, m, j))
    decreases j, 0
  {
    var fs := sc[m.typ];
    forall k | k in j.m && k in fs && !fs[k].Amount?
      ensures SameMember(sc, fs[k], j.m[k], FixJsonValue(c, sc, fs[k], Get(sc, m, k), j.m[k]))
    {
      assert WellTypedValue(sc, fs[k], m.fields[k]);
      MarshalValueChangesOnlyAmounts(c, sc, fs[k], m.fields[k], j.m[k]);
    }
  }

  lemma {:induction false} MarshalValueChangesOnlyAmounts(c: Codec, sc: Schema, t: FieldType, v: Value, j: Json)
    requires WellTypedValue(sc, t, v) && Closed(sc) && !t.Amount?
    requires t.One? ==> t.typ in sc
    ensures SameMember(sc, t, j, FixJsonValue(c, sc, t, v, j))
    decreases j, 1
  {
    if t.One? {
      if j.Object? {
        EmptyIsWellTyped(sc, t.typ);
        MarshalChangesOnlyAmounts(c, sc, SubOr(sc, v, t.typ), j);
      }
    } else if t.Many? && j.Arr? {
      var w := FixJsonValue(c, sc, t, v, j);
      forall i | 0 <= i < |j.items| ensures SameButAmounts(sc, t.typ, j.items[i], w.items[i]) {
        if i < |v.msgs| && j.items[i].Object? {
          MarshalChangesOnlyAmounts(c, sc, v.msgs[i], j.items[i]);
        } else {
          SameButAmountsReflexive(sc, t.typ, j.items[i]);
        }
      }
    }
  }

  lemma EmptyIsWellTyped(sc: Schema, typ: string)
    requires typ in sc
    ensures WellTyped(sc, EmptyMsg(sc, typ))
  {
  }
}
