/**
 * The Python face of a data instance: index normalisation, conversion of a
 * Python list into the value slots of an example and back, the weight and
 * meta-value rules, and the text that `repr` gives. Python objects are
 * modelled by the few shapes the code distinguishes; the per-variable text
 * conversions (`str2val`, `val2str`) and `%.2f` formatting are parameters.
 */
module OrangeExample {
  import opened Wrappers
  import Text

  /** The type tags of a value; `NoneType` is the tag whose code is 0. */
  datatype VarType = NoneType | IntVar | FloatVar | OtherVar

  /** A variable; `id` stands for its identity (the source compares pointers). */
  datatype Variable = Variable(id: nat, name: string, varType: VarType)

  /** A value: its type tag, whether it is special (unknown), and its payload. */
  datatype Value = Value(varType: VarType, special: bool, intV: int, floatV: real)

  function IntValue(i: int): Value
  {
    Value(IntVar, false, i, 0.0)
  }

  function FloatValue(f: real): Value
  {
    Value(FloatVar, false, 0, f)
  }

  datatype MetaDescriptor = MetaDescriptor(id: int, variable: Variable)

  datatype Domain = Domain(attributes: seq<Variable>, classVar: Option<Variable>, metas: seq<MetaDescriptor>)

  /** The domain's variables: the attributes, then the class variable if there is one. */
  function Variables(d: Domain): (vs: seq<Variable>)
    ensures |vs| == |d.attributes| + (if d.classVar.Some? then 1 else 0)
    ensures vs[..|d.attributes|] == d.attributes
  {
    d.attributes + (if d.classVar.Some? then [d.classVar.value] else [])
  }

  /** The shapes of Python object the conversions tell apart. */
  datatype PyObj =
    | PyValueObj(variable: Option<nat>, value: Value)  // an Orange Value, bound to a variable or not
    | PyStr(s: string)
    | PyInt(i: int)                                     // a Python 2 int (a C long)
    | PyLong(i: int)                                    // a Python long: a number, but not an int
    | PyFloat(f: real)
    | PyList(items: seq<PyObj>)
    | PyVariable(pyVar: Variable)                       // an Orange Variable object
    | PyOther

  /** A C `int(...)` cast of an integer: the low 32 bits, read as signed. */
  function Int32(x: int): (r: int)
    ensures -0x8000_0000 <= r < 0x8000_0000
    ensures (r - x) % 0x1_0000_0000 == 0
    ensures -0x8000_0000 <= x < 0x8000_0000 ==> r == x
  {
    (x + 0x8000_0000) % 0x1_0000_0000 - 0x8000_0000
  }

  // ---------------------------------------------------------------------
  // Index normalisation

  /**
   * exampleIndex: a negative index counts from the end; anything still
   * outside [0, n) is an error, reported as -1.
   */
  function ExampleIndex(n: nat, ind: int): (r: int)
    ensures r == -1 || 0 <= r < n
    ensures ind < 0 && 0 <= ind + n ==> r == ind + n
    ensures 0 <= ind < n ==> r == ind
    ensures r == -1 <==> ind + n < 0 || n <= ind
  {
    var i := if ind < 0 then ind + n else ind;
    if i < 0 || i >= n then -1 else i
  }

  /** The normalised index is the index taken modulo n, for every index in [-n, n). */
  lemma ExampleIndexModulo(n: nat, ind: int)
    requires 0 <= ind + n && ind < n
    ensures ExampleIndex(n, ind) == ind % n
  {
    if ind < 0 {
      assert ind == -1 * n + (ind + n) && 0 <= ind + n < n;
      assert ind / n == -1;
    } else {
      assert ind == 0 * n + ind;
      assert ind / n == 0;
    }
  }

  /** The integer branch of getAttributeIndex: the Python int is cast to a C int, then normalised. */
  function GetAttributeIndexInt(d: Domain, pyInt: int): (r: int)
    ensures var ind, n := Int32(pyInt), |Variables(d)|;
            (r == -1 || 0 <= r < n)
            && (ind < 0 && 0 <= ind + n ==> r == ind + n)
            && (0 <= ind < n ==> r == ind)
            && (r == -1 <==> ind + n < 0 || n <= ind)
  {
    var ind := Int32(pyInt);
    var ind' := if ind < 0 then ind + |Variables(d)| else ind;
    if ind' < 0 || ind' >= |Variables(d)| then -1 else ind'
  }

  /** For a Python int that fits a C int, getAttributeIndex and exampleIndex agree. */
  lemma AttributeIndexAgrees(d: Domain, pyInt: int)
    requires -0x8000_0000 <= pyInt < 0x8000_0000
    ensures GetAttributeIndexInt(d, pyInt) == ExampleIndex(|Variables(d)|, pyInt)
  {
  }

  // ---------------------------------------------------------------------
  // Converting a list into an example

  datatype ConvError =
    | NotAList
    | WrongSize(expected: nat)
    | WrongValueType(pos: nat)
    | OrdinalExpectsInt(pos: nat)
    | ContinuousExpectsFloat(pos: nat)

  /**
   * The new content of the slot for variable `v` (attribute number `pos`,
   * counting from 1) given list item `item`; `slot` is the old content,
   * which an item of no recognised kind leaves in place.
   */
  function ConvertItem(item: PyObj, v: Variable, slot: Value, str2val: (Variable, string) -> Value, pos: nat)
    : (r: Result<Value, ConvError>)
    ensures item.PyValueObj? && item.variable.None? && r.Ok? ==> r.value.varType == v.varType
    ensures item.PyValueObj? && item.variable.Some? ==> (r.Ok? <==> item.variable.value == v.id)
    ensures r.Err? ==> r.error in {WrongValueType(pos), OrdinalExpectsInt(pos), ContinuousExpectsFloat(pos)}
  {
    match item
    case PyValueObj(variable, value) =>
      if variable.Some? then
        if variable.value != v.id then Err(WrongValueType(pos)) else Ok(value)
      else if value.varType != v.varType then Err(WrongValueType(pos))
      else Ok(value)
    case PyStr(s) => Ok(str2val(v, s))
    case PyInt(i) =>
      if v.varType == IntVar then Ok(IntValue(Int32(i)))
      else if v.varType == FloatVar then Ok(FloatValue(i as real))
      else Ok(slot)
    case PyLong(i) =>
      if v.varType == IntVar then Err(OrdinalExpectsInt(pos))
      else if v.varType == FloatVar then Ok(FloatValue(i as real))
      else Ok(slot)
    case PyFloat(f) =>
      if v.varType == IntVar then Err(OrdinalExpectsInt(pos))
      else if v.varType == FloatVar then Ok(FloatValue(f))
      else Ok(slot)
    case _ =>
      if v.varType == IntVar then Err(OrdinalExpectsInt(pos))
      else if v.varType == FloatVar then Err(ContinuousExpectsFloat(pos))
      else Ok(slot)
  }

  /**
   * The item conversion as written: for a value bound to no variable, the
   * test assigns `!vartype` to the value's tag instead of comparing the
   * tags, so it fails only for a variable whose tag is 0, and the value is
   * stored with tag 0.
   */
  function ConvertItemAsWritten(item: PyObj, v: Variable, slot: Value, str2val: (Variable, string) -> Value, pos: nat)
    : (r: Result<Value, ConvError>)
    ensures item.PyValueObj? && item.variable.None? ==>
              (r.Ok? <==> v.varType != NoneType) && (r.Ok? ==> r.value == item.value.(varType := NoneType))
    ensures !(item.PyValueObj? && item.variable.None?) ==> r == ConvertItem(item, v, slot, str2val, pos)
  {
    match item
    case PyValueObj(None, value) =>
      var tag := if v.varType == NoneType then IntVar else NoneType;
      if tag != NoneType then Err(WrongValueType(pos)) else Ok(value.(varType := tag))
    case _ => ConvertItem(item, v, slot, str2val, pos)
  }

  /** An unbound integer value given for a continuous attribute: accepted as written, refused as intended. */
  lemma UnboundValueTypeUnchecked(str2val: (Variable, string) -> Value)
    ensures var v := Variable(0, "x", FloatVar);
            var item := PyValueObj(None, IntValue(3));
            ConvertItemAsWritten(item, v, FloatValue(0.0), str2val, 1) == Ok(Value(NoneType, false, 3, 0.0))
            && ConvertItem(item, v, FloatValue(0.0), str2val, 1) == Err(WrongValueType(1))
  {
  }

  /** The first position whose item is refused, or the length when all are accepted. */
  function FirstFailure(items: seq<PyObj>, vars: seq<Variable>, slots: seq<Value>, str2val: (Variable, string) -> Value,
                        from: nat): (p: nat)
    requires |items| == |vars| == |slots| && from <= |items|
    ensures from <= p <= |items|
    ensures forall i :: from <= i < p ==> ConvertItem(items[i], vars[i], slots[i], str2val, i + 1).Ok?
    ensures p < |items| ==> ConvertItem(items[p], vars[p], slots[p], str2val, p + 1).Err?
    decreases |items| - from
  {
    if from == |items| then from
    else if ConvertItem(items[from], vars[from], slots[from], str2val, from + 1).Err? then from
    else FirstFailure(items, vars, slots, str2val, from + 1)
  }

  // ---------------------------------------------------------------------
  // Converting an example into Python objects

  /** What toValue gives: a plain int or float, the single-value native form, or a Value object. */
  datatype Native =
    | NInt(i: int)
    | NFloat(f: real)
    | NPlain(variable: Option<Variable>, value: Value)
    | NValueObj(variable: Option<Variable>, value: Value)

  datatype NativeExample = NList(items: seq<Native>) | NPair(attrs: seq<Native>, cls: Native)

  /** toValue: nativity -1 gives numbers, 0 the native form of the value, anything else a Value object. */
  function ToValue(val: Value, v: Option<Variable>, natvt: int): (r: Native)
    ensures natvt == -1 ==> (r.NInt? <==> val.varType == IntVar) && (r.NInt? || r.NFloat?)
    ensures natvt == -1 && r.NInt? ==> r.i == val.intV
    ensures natvt == -1 && r.NFloat? ==> r.f == val.floatV
    ensures natvt == 0 ==> r == NPlain(v, val)
    ensures natvt != -1 && natvt != 0 ==> r == NValueObj(v, val)
  {
    if natvt == -1 then (if val.varType == IntVar then NInt(val.intV) else NFloat(val.floatV))
    else if natvt == 0 then NPlain(v, val)
    else NValueObj(v, val)
  }

  /** A number written into a slot by the list conversion comes back as the same number with nativity -1. */
  lemma NativeRoundTrip(item: PyObj, v: Variable, slot: Value, str2val: (Variable, string) -> Value, pos: nat)
    requires item.PyInt? || item.PyFloat?
    requires v.varType == IntVar ==> item.PyInt? && -0x8000_0000 <= item.i < 0x8000_0000
    requires v.varType == FloatVar || v.varType == IntVar
    ensures ConvertItem(item, v, slot, str2val, pos).Ok?
    ensures var back := ToValue(ConvertItem(item, v, slot, str2val, pos).value, Some(v), -1);
            if v.varType == IntVar then back == NInt(item.i)
            else back == NFloat(if item.PyInt? then item.i as real else item.f)
  {
  }

  // ---------------------------------------------------------------------
  // Weights and meta ids

  datatype MetaError =
    | IdNotInt            // "an integer id expected"
    | InvalidWeight       // the meta value is special or not continuous
    | InvalidWeightId     // an id that is not positive
    | MetaNotFound(id: int)
    | InvalidMetaName(name: string)
    | InvalidMeta

  /**
   * Example_getweight: id 0 means weight 1.0 without looking at the
   * metas; any other id must hold a known continuous value.
   */
  function Weight(meta: map<int, Value>, pyIndex: PyObj): (r: Result<real, MetaError>)
    ensures !pyIndex.PyInt? ==> r == Err(IdNotInt)
    ensures pyIndex.PyInt? && Int32(pyIndex.i) == 0 ==> r == Ok(1.0)
    ensures pyIndex.PyInt? && Int32(pyIndex.i) != 0 ==>
              (r.Ok? <==> Int32(pyIndex.i) in meta && !meta[Int32(pyIndex.i)].special
                          && meta[Int32(pyIndex.i)].varType == FloatVar)
    ensures pyIndex.PyInt? && Int32(pyIndex.i) != 0 && r.Ok? ==> r.value == meta[Int32(pyIndex.i)].floatV
  {
    if !pyIndex.PyInt? then Err(IdNotInt)
    else
      var index := Int32(pyIndex.i);
      if index == 0 then Ok(1.0)
      else if index !in meta then Err(MetaNotFound(index))
      else
        var val := meta[index];
        if val.special || val.varType != FloatVar then Err(InvalidWeight) else Ok(val.floatV)
  }

  /** A weight that setweight stores under a positive id is what getweight then reads. */
  lemma SetThenGetWeight(meta: map<int, Value>, id: int, w: real)
    requires 0 < id < 0x8000_0000
    ensures Weight(meta[id := FloatValue(w)], PyInt(id)) == Ok(w)
  {
  }

  /** After removeweight, getweight of that id fails, and the weights of other ids do not change. */
  lemma RemoveThenGetWeight(meta: map<int, Value>, id: int, other: int)
    requires 0 < id < 0x8000_0000 && other != id && -0x8000_0000 <= other < 0x8000_0000
    ensures Weight(meta - {id}, PyInt(id)).Err?
    ensures Weight(meta - {id}, PyInt(other)) == Weight(meta, PyInt(other))
  {
  }

  /** Setting one weight leaves the weight of every other id unchanged. */
  lemma SetWeightFrame(meta: map<int, Value>, id: int, w: real, other: int)
    requires other != id && -0x8000_0000 <= other < 0x8000_0000
    ensures Weight(meta[id := FloatValue(w)], PyInt(other)) == Weight(meta, PyInt(other))
  {
  }

  /** The first meta descriptor with the given id, name or variable. */
  function MetaById(metas: seq<MetaDescriptor>, id: int): (r: Option<MetaDescriptor>)
    ensures r.Some? ==> r.value in metas && r.value.id == id
    ensures r.None? <==> forall m :: m in metas ==> m.id != id
  {
    if metas == [] then None
    else if metas[0].id == id then Some(metas[0])
    else MetaById(metas[1..], id)
  }

  function MetaByName(metas: seq<MetaDescriptor>, name: string): (r: Option<MetaDescriptor>)
    ensures r.Some? ==> r.value in metas && r.value.variable.name == name
    ensures r.None? <==> forall m :: m in metas ==> m.variable.name != name
  {
    if metas == [] then None
    else if metas[0].variable.name == name then Some(metas[0])
    else MetaByName(metas[1..], name)
  }

  function MetaByVariable(metas: seq<MetaDescriptor>, v: Variable): (r: Option<MetaDescriptor>)
    ensures r.Some? ==> r.value in metas && r.value.variable.id == v.id
    ensures r.None? <==> forall m :: m in metas ==> m.variable.id != v.id
  {
    if metas == [] then None
    else if metas[0].variable.id == v.id then Some(metas[0])
    else MetaByVariable(metas[1..], v)
  }

  /**
   * getMetaIdFromPy: an int is taken as the id itself (its variable may be
   * unknown), a string names a meta variable, a variable is looked up
   * among the metas; anything else is refused.
   */
  function MetaId(d: Domain, index: PyObj): (r: Result<(int, Option<Variable>), MetaError>)
    ensures index.PyInt? ==> r == Ok((Int32(index.i), if MetaById(d.metas, Int32(index.i)).Some? then Some(MetaById(d.metas, Int32(index.i)).value.variable) else None))
    ensures index.PyStr? ==>
              (r.Ok? <==> exists m :: m in d.metas && m.variable.name == index.s)
              && (r.Ok? ==> r.value.1.Some? && r.value.1.value.name == index.s)
    ensures index.PyVariable? ==>
              (r.Ok? <==> exists m :: m in d.metas && m.variable.id == index.pyVar.id)
              && (r.Ok? ==> r.value.1 == Some(index.pyVar))
    ensures !index.PyInt? && !index.PyStr? && !index.PyVariable? ==> r == Err(InvalidMeta)
    ensures r.Ok? && !index.PyInt? ==> exists m :: m in d.metas && m.id == r.value.0
  {
    if index.PyInt? then
      var idx := Int32(index.i);
      var desc := MetaById(d.metas, idx);
      Ok((idx, if desc.Some? then Some(desc.value.variable) else None))
    else if index.PyStr? then
      var desc := MetaByName(d.metas, index.s);
      if desc.None? then Err(InvalidMetaName(index.s)) else Ok((desc.value.id, Some(desc.value.variable)))
    else if index.PyVariable? then
      var desc := MetaByVariable(d.metas, index.pyVar);
      if desc.None? then Err(InvalidMeta) else Ok((desc.value.id, Some(index.pyVar)))
    else Err(InvalidMeta)
  }

  /** Meta descriptors with distinct ids, names and variables. */
  predicate DistinctMetas(d: Domain)
  {
    forall i, j :: 0 <= i < j < |d.metas| ==>
      d.metas[i].id != d.metas[j].id && d.metas[i].variable.name != d.metas[j].variable.name
      && d.metas[i].variable.id != d.metas[j].variable.id
  }

  /** The name, the variable and the id of a meta variable all lead to the same id. */
  lemma MetaIdLookupsAgree(d: Domain, k: nat)
    requires DistinctMetas(d) && k < |d.metas| && -0x8000_0000 <= d.metas[k].id < 0x8000_0000
    ensures MetaId(d, PyStr(d.metas[k].variable.name)) == Ok((d.metas[k].id, Some(d.metas[k].variable)))
    ensures MetaId(d, PyVariable(d.metas[k].variable)) == Ok((d.metas[k].id, Some(d.metas[k].variable)))
    ensures MetaId(d, PyInt(d.metas[k].id)) == Ok((d.metas[k].id, Some(d.metas[k].variable)))
  {
    var m := d.metas[k];
    var byName, byVar, byId := MetaByName(d.metas, m.variable.name), MetaByVariable(d.metas, m.variable), MetaById(d.metas, m.id);
    assert m in d.metas;
    MetaUnique(d, k, byName.value);
    MetaUnique(d, k, byVar.value);
    MetaUnique(d, k, byId.value);
  }

  lemma MetaUnique(d: Domain, k: nat, m: MetaDescriptor)
    requires DistinctMetas(d) && k < |d.metas| && m in d.metas
    requires m.id == d.metas[k].id || m.variable.name == d.metas[k].variable.name || m.variable.id == d.metas[k].variable.id
    ensures m == d.metas[k]
  {
    var j :| 0 <= j < |d.metas| && d.metas[j] == m;
    if j < k {
      assert false;
    } else if k < j {
      assert false;
    }
  }

  // ---------------------------------------------------------------------
  // repr

  /** addValue: the text of a value, in single quotes unless its variable is continuous. */
  function AddValue(val2str: (Variable, Value) -> string, val: Value, v: Variable): (s: string)
    ensures v.varType != FloatVar ==> |s| >= 2 && s[0] == '\'' && s[|s| - 1] == '\''
    ensures v.varType == FloatVar ==> s == val2str(v, val)
  {
    if v.varType != FloatVar then "'" + val2str(v, val) + "'" else val2str(v, val)
  }

  /** The parts joined with ", ". */
  function Join(parts: seq<string>): string
  {
    if parts == [] then ""
    else if |parts| == 1 then parts[0]
    else Join(parts[..|parts| - 1]) + ", " + parts[|parts| - 1]
  }

  lemma JoinSnoc(parts: seq<string>, i: nat)
    requires i < |parts|
    ensures Join(parts[..i + 1]) == Join(parts[..i]) + (if i == 0 then "" else ", ") + parts[i]
  {
    assert parts[..i + 1][..i] == parts[..i];
  }

  /** One more entry in the braced list. */
  lemma BracketedStep(texts: seq<string>, i: nat, res: string, entry: string)
    requires i < |texts| && entry == texts[i]
    requires res == "[" + Join(texts[..i])
    ensures res + (if i != 0 then ", " else "") + entry == "[" + Join(texts[..i + 1])
  {
    JoinSnoc(texts, i);
    if i == 0 {
      assert texts[..1] == [entry];
    }
  }

  lemma BracedStep(texts: seq<string>, m: nat, res: string, entry: string)
    requires m < |texts| && entry == texts[m]
    requires m == 0 ==> res == ""
    requires m > 0 ==> res == ", {" + Join(texts[..m])
    ensures res + (if m != 0 then ", " else ", {") + entry == ", {" + Join(texts[..m + 1])
  {
    JoinSnoc(texts, m);
  }

  /** The text of one meta entry: a known meta variable by name, an unknown float by id, else "???". */
  function MetaEntry(d: Domain, val2str: (Variable, Value) -> string, fixed2: real -> string, id: int, val: Value): string
  {
    var desc := MetaById(d.metas, id);
    if desc.Some? then "\"" + desc.value.variable.name + "\":" + AddValue(val2str, val, desc.value.variable)
    else if val.varType == FloatVar then Text.IntStr(id) + ":" + fixed2(val.floatV)
    else "???"
  }

  function ValueTexts(val2str: (Variable, Value) -> string, vals: seq<Value>, vars: seq<Variable>): (r: seq<string>)
    requires |vals| == |vars|
    ensures |r| == |vals|
    ensures forall i :: 0 <= i < |r| ==> r[i] == AddValue(val2str, vals[i], vars[i])
  {
    seq(|vals|, i requires 0 <= i < |vals| => AddValue(val2str, vals[i], vars[i]))
  }

  /** `order` visits every meta id of `meta` exactly once. */
  predicate ListsMetas(meta: map<int, Value>, order: seq<int>)
  {
    && (forall i, j :: 0 <= i < j < |order| ==> order[i] != order[j])
    && (forall id :: id in meta ==> id in order)
    && (forall id :: id in order ==> id in meta)
  }

  /** An iteration order over the metas is empty exactly when there are no metas. */
  lemma NoMetasNoOrder(meta: map<int, Value>, order: seq<int>)
    requires ListsMetas(meta, order)
    ensures order == [] <==> meta == map[]
  {
    if order != [] {
      var first := order[0];
      assert first in meta;
    } else {
      assert forall id :: id !in meta;
    }
  }

  /** The text of each meta entry, one per meta id, in the iteration order. */
  function MetaTexts(d: Domain, val2str: (Variable, Value) -> string, fixed2: real -> string,
                     meta: map<int, Value>, order: seq<int>): (r: seq<string>)
    requires ListsMetas(meta, order)
    ensures |r| == |order|
    ensures forall k :: 0 <= k < |r| ==> r[k] == MetaEntry(d, val2str, fixed2, order[k], meta[order[k]])
  {
    seq(|order|, k requires 0 <= k < |order| => MetaEntry(d, val2str, fixed2, order[k], meta[order[k]]))
  }

  /** Every meta has its entry text, at the place where the order visits its id. */
  lemma MetaTextsCover(d: Domain, val2str: (Variable, Value) -> string, fixed2: real -> string,
                       meta: map<int, Value>, order: seq<int>, id: int)
    requires ListsMetas(meta, order) && id in meta
    ensures exists k :: 0 <= k < |order| && order[k] == id
              && MetaTexts(d, val2str, fixed2, meta, order)[k] == MetaEntry(d, val2str, fixed2, id, meta[id])
  {
    var k :| 0 <= k < |order| && order[k] == id;
    assert MetaTexts(d, val2str, fixed2, meta, order)[k] == MetaEntry(d, val2str, fixed2, id, meta[id]);
  }

  /** The whole repr text for values `vals` and the metas visited in `order`. */
  function ReprText(d: Domain, val2str: (Variable, Value) -> string, fixed2: real -> string,
                    vals: seq<Value>, meta: map<int, Value>, order: seq<int>): string
    requires |vals| == |Variables(d)| && ListsMetas(meta, order)
  {
    "[" + Join(ValueTexts(val2str, vals, Variables(d))) + "]"
    + (if meta == map[] then "" else ", {" + Join(MetaTexts(d, val2str, fixed2, meta, order)) + "}")
  }

  /**
   * The repr text starts with the bracketed values, and it ends with "]"
   * exactly when there are no metas; otherwise the metas follow in braces.
   */
  lemma ReprShape(d: Domain, val2str: (Variable, Value) -> string, fixed2: real -> string,
                  vals: seq<Value>, meta: map<int, Value>, order: seq<int>)
    requires |vals| == |Variables(d)| && ListsMetas(meta, order)
    ensures var s := ReprText(d, val2str, fixed2, vals, meta, order);
            var head := "[" + Join(ValueTexts(val2str, vals, Variables(d))) + "]";
            |head| <= |s| && s[..|head|] == head && s[0] == '['
            && (meta == map[] <==> s[|s| - 1] == ']')
            && (meta != map[] ==> s[|head|..|head| + 3] == ", {" && s[|s| - 1] == '}')
  {
    var values := Join(ValueTexts(val2str, vals, Variables(d)));
    var metas := Join(MetaTexts(d, val2str, fixed2, meta, order));
    var tail := if meta == map[] then "" else ", {" + metas + "}";
    BracesShape(metas);
    BracketsShape(values, tail);
  }

  /** ", {" + metas + "}" opens with ", {" and closes with "}". */
  lemma BracesShape(metas: string)
    ensures var tail := ", {" + metas + "}";
            |tail| >= 4 && tail[..3] == ", {" && tail[|tail| - 1] == '}'
  {
    var tail := ", {" + metas + "}";
    assert tail[..3] == ", {";
  }

  /** "[" + values + "]" followed by nothing, or by ", {" + metas + "}". */
  lemma BracketsShape(values: string, tail: string)
    requires tail == "" || (|tail| >= 4 && tail[..3] == ", {" && tail[|tail| - 1] == '}')
    ensures var head := "[" + values + "]";
            var s := head + tail;
            |head| <= |s| && s[..|head|] == head && s[0] == '['
            && (tail == "" <==> s[|s| - 1] == ']')
            && (tail != "" ==> s[|head|..|head| + 3] == ", {" && s[|s| - 1] == '}')
  {
    var head := "[" + values + "]";
    var s := head + tail;
    assert s[..|head|] == head;
    if tail != "" {
      assert s[|s| - 1] == tail[|tail| - 1];
      assert s[|head|..|head| + 3] == tail[..3];
    }
    assert s[0] == head[0];
  }

  // ---------------------------------------------------------------------
  // The example

  class Example {
    const domain: Domain
    const values: array<Value>
    var meta: map<int, Value>

    ghost predicate Valid()
      reads this
    {
      values.Length == |Variables(domain)|
    }

    /** An example of the domain with every slot set to `initial` and no metas. */
    constructor (domain: Domain, initial: Value)
      ensures Valid() && this.domain == domain && meta == map[]
      ensures fresh(values) && forall i :: 0 <= i < values.Length ==> values[i] == initial
    {
      this.domain := domain;
      values := new Value[|Variables(domain)|](_ => initial);
      meta := map[];
    }

    /**
     * convertFromPythonExisting: the argument must be a list with one item
     * per variable; the items are converted in order and written to their
     * slots until the first one that is refused, which ends the conversion
     * with the slots before it already written.
     */
    method ConvertFromPythonExisting(lst: PyObj, str2val: (Variable, string) -> Value) returns (r: Outcome<ConvError>)
      requires Valid()
      modifies values
      ensures !lst.PyList? ==> r == Fail(NotAList) && values[..] == old(values[..])
      ensures lst.PyList? && |lst.items| != values.Length ==>
                r == Fail(WrongSize(values.Length)) && values[..] == old(values[..])
      ensures lst.PyList? && |lst.items| == values.Length ==>
                var p := FirstFailure(lst.items, Variables(domain), old(values[..]), str2val, 0);
                (r == Pass <==> p == values.Length)
                && (r.Fail? ==> p < values.Length
                                && r.error == ConvertItem(lst.items[p], Variables(domain)[p], old(values[p]), str2val, p + 1).error)
                && (forall i :: 0 <= i < p ==>
                      values[i] == ConvertItem(lst.items[i], Variables(domain)[i], old(values[i]), str2val, i + 1).value)
                && (forall i :: p <= i < values.Length ==> values[i] == old(values[i]))
    {
      if !lst.PyList? {
        return Fail(NotAList);
      }
      var vars := Variables(domain);
      if |vars| != |lst.items| {
        return Fail(WrongSize(|vars|));
      }
      ghost var slots := values[..];
      ghost var p := FirstFailure(lst.items, vars, slots, str2val, 0);
      var pos := 0;
      while pos < |vars|
        invariant pos <= p
        invariant forall i :: 0 <= i < pos ==> values[i] == ConvertItem(lst.items[i], vars[i], slots[i], str2val, i + 1).value
        invariant forall i :: pos <= i < values.Length ==> values[i] == slots[i]
      {
        var res := ConvertItem(lst.items[pos], vars[pos], values[pos], str2val, pos + 1);
        if res.Err? {
          assert p == pos;
          return Fail(res.error);
        }
        values[pos] := res.value;
        pos := pos + 1;
      }
      return Pass;
    }

    /**
     * convertToPythonNative: one entry per attribute, then the class value
     * (the last slot); with `tuples` the pair (attributes, class) instead.
     */
    method ConvertToPythonNative(natvt: int, tuples: bool) returns (r: NativeExample)
      requires Valid() && values.Length > 0
      ensures tuples ==> r.NPair? && |r.attrs| == |domain.attributes|
                         && r.cls == ToValue(values[values.Length - 1], domain.classVar, natvt)
                         && forall i :: 0 <= i < |r.attrs| ==> r.attrs[i] == ToValue(values[i], Some(domain.attributes[i]), natvt)
      ensures !tuples ==> r.NList? && |r.items| == |domain.attributes| + 1
                          && r.items[|domain.attributes|] == ToValue(values[values.Length - 1], domain.classVar, natvt)
                          && forall i :: 0 <= i < |domain.attributes| ==> r.items[i] == ToValue(values[i], Some(domain.attributes[i]), natvt)
    {
      var list: seq<Native> := [];
      for i := 0 to |domain.attributes|
        invariant |list| == i
        invariant forall j :: 0 <= j < i ==> list[j] == ToValue(values[j], Some(domain.attributes[j]), natvt)
      {
        list := list + [ToValue(values[i], Some(domain.attributes[i]), natvt)];
      }
      var pyclass := ToValue(values[values.Length - 1], domain.classVar, natvt);
      if tuples {
        r := NPair(list, pyclass);
      } else {
        r := NList(list + [pyclass]);
      }
    }

    /**
     * setweight: a positive id gets the continuous value `weight`; any
     * other id is refused and nothing changes.
     */
    method SetWeight(index: int, weight: real) returns (r: Outcome<MetaError>)
      modifies this
      ensures index <= 0 ==> r == Fail(InvalidWeightId) && meta == old(meta)
      ensures index > 0 ==> r == Pass && meta == old(meta)[index := FloatValue(weight)]
    {
      if index <= 0 {
        return Fail(InvalidWeightId);
      }
      meta := meta[index := FloatValue(weight)];
      return Pass;
    }

    /** removeweight: a positive int id loses its meta value; anything else is refused. */
    method RemoveWeight(pyIndex: PyObj) returns (r: Outcome<MetaError>)
      modifies this
      ensures !pyIndex.PyInt? ==> r == Fail(IdNotInt) && meta == old(meta)
      ensures pyIndex.PyInt? && Int32(pyIndex.i) <= 0 ==> r == Fail(InvalidWeightId) && meta == old(meta)
      ensures pyIndex.PyInt? && Int32(pyIndex.i) > 0 ==> r == Pass && meta == old(meta) - {Int32(pyIndex.i)}
    {
      if !pyIndex.PyInt? {
        return Fail(IdNotInt);
      }
      var index := Int32(pyIndex.i);
      if index <= 0 {
        return Fail(InvalidWeightId);
      }
      meta := meta - {index};
      return Pass;
    }

    /** The first loop of TPyExample2string: the values, separated by ", ", in brackets. */
    method ValuesRepr(val2str: (Variable, Value) -> string) returns (res: string)
      requires Valid()
      ensures res == "[" + Join(ValueTexts(val2str, values[..], Variables(domain))) + "]"
    {
      var vars := Variables(domain);
      ghost var texts := ValueTexts(val2str, values[..], vars);
      res := "[";
      for i := 0 to values.Length
        invariant res == "[" + Join(texts[..i])
      {
        var entry := AddValue(val2str, values[i], vars[i]);
        BracketedStep(texts, i, res, entry);
        if i != 0 {
          res := res + ", ";
        }
        res := res + entry;
      }
      assert texts[..values.Length] == texts;
      res := res + "]";
    }

    /** The second loop: every meta entry, in `order`, in braces after ", ", or nothing without metas. */
    method MetasRepr(val2str: (Variable, Value) -> string, fixed2: real -> string, order: seq<int>) returns (res: string)
      requires ListsMetas(meta, order)
      ensures res == if meta == map[] then "" else ", {" + Join(MetaTexts(domain, val2str, fixed2, meta, order)) + "}"
    {
      NoMetasNoOrder(meta, order);
      ghost var texts := MetaTexts(domain, val2str, fixed2, meta, order);
      res := "";
      var madded := 0;
      while madded < |order|
        invariant madded <= |order| == |texts|
        invariant madded == 0 ==> res == ""
        invariant madded > 0 ==> res == ", {" + Join(texts[..madded])
      {
        var id := order[madded];
        var entry := MetaEntry(domain, val2str, fixed2, id, meta[id]);
        BracedStep(texts, madded, res, entry);
        res := res + (if madded != 0 then ", " else ", {") + entry;
        madded := madded + 1;
      }
      assert texts[..madded] == texts;
      if madded != 0 {
        res := res + "}";
      }
    }

    /**
     * TPyExample2string: the values in brackets, then the metas, visited in
     * `order`, in braces when there is at least one.
     */
    method Repr(val2str: (Variable, Value) -> string, fixed2: real -> string, order: seq<int>) returns (res: string)
      requires Valid() && ListsMetas(meta, order)
      ensures res == ReprText(domain, val2str, fixed2, values[..], meta, order)
    {
      var head := ValuesRepr(val2str);
      var tail := MetasRepr(val2str, fixed2, order);
      res := head + tail;
    }
  }
}
