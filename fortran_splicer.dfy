/**
 * The generator of Sidre's Fortran splicers: for every element type and
 * every rank up to the largest supported one it fills a format dictionary
 * and asks a template function for the text of one routine; the type-bound
 * procedures are then collected under one generic binding whose lines are
 * joined by Fortran continuation marks.
 *
 * A format dictionary maps names to strings or numbers; a template that
 * names a key the dictionary lacks fails with a key error, as Python's
 * `str.format` does. Each template is represented by the lines of its text
 * that depend on the dictionary.
 */
module FortranSplicer {
  import opened Wrappers
  import Decimal

  // -----------------------------------------------------------------------
  // Element types and ranks
  // -----------------------------------------------------------------------

  /** One element type: its name in routine names, its Fortran type, its Sidre type id and its Conduit type id. */
  datatype TypeInfo = TypeInfo(typename: string, fType: string, atkType: string, cppType: string)

  const Types: seq<TypeInfo> := [
    TypeInfo("int", "integer(C_INT)", "ATK_C_INT_T", "CONDUIT_NATIVE_INT_DATATYPE_ID"),
    TypeInfo("long", "integer(C_LONG)", "ATK_C_LONG_T", "CONDUIT_NATIVE_LONG_DATATYPE_ID"),
    TypeInfo("float", "real(C_FLOAT)", "ATK_C_FLOAT_T", "CONDUIT_NATIVE_FLOAT_DATATYPE_ID"),
    TypeInfo("double", "real(C_DOUBLE)", "ATK_C_DOUBLE_T", "CONDUIT_NATIVE_DOUBLE_DATATYPE_ID")
  ]

  /** Only scalars and one-dimensional arrays are generated. */
  const MaxDims: nat := 1

  /** The number of (type, rank) combinations: one per type and rank, scalars included. */
  function NumMetabuffers(): (n: nat)
    ensures n == 8
  {
    |Types| * (MaxDims + 1)
  }

  // -----------------------------------------------------------------------
  // Format dictionaries
  // -----------------------------------------------------------------------

  datatype Value = Str(s: string) | Num(n: nat)

  type Dict = map<string, Value>

  /** How `str.format` renders a value. */
  function Render(v: Value): string
  {
    match v
    case Str(s) => s
    case Num(n) => Decimal.NatToString(n)
  }

  function KeyError(key: string): string
  {
    "KeyError: " + key
  }

  /**
   * The rendering of each named key, in order; the first key the
   * dictionary lacks is a key error.
   */
  function Fields(d: Dict, keys: seq<string>): (r: Result<seq<string>, string>)
    ensures r.Ok? <==> forall i :: 0 <= i < |keys| ==> keys[i] in d
    ensures r.Ok? ==> |r.value| == |keys| && forall i :: 0 <= i < |keys| ==> r.value[i] == Render(d[keys[i]])
    ensures r.Err? ==> exists i :: (0 <= i < |keys| && keys[i] !in d && r.error == KeyError(keys[i])
      && forall j :: 0 <= j < i ==> keys[j] in d)
  {
    if |keys| == 0 then Ok([])
    else if keys[0] !in d then Err(KeyError(keys[0]))
    else match Fields(d, keys[1..])
      case Err(e) => Err(e)
      case Ok(rest) => Ok([Render(d[keys[0]])] + rest)
  }

  /** Python's `sep.join(parts)`. */
  function Join(parts: seq<string>, sep: string): string
  {
    if |parts| == 0 then ""
    else if |parts| == 1 then parts[0]
    else parts[0] + sep + Join(parts[1..], sep)
  }

  /** `n` copies of the deferred-shape mark `:`. */
  function Colons(n: nat): (s: seq<string>)
    ensures |s| == n && forall i :: 0 <= i < n ==> s[i] == ":"
  {
    seq(n, _ => ":")
  }

  function LBound(n: nat): string
  {
    "lbound(value," + Decimal.NatToString(n) + ")"
  }

  /** `lbound(value,1)`, ..., `lbound(value,n)`. */
  function LBounds(n: nat): (s: seq<string>)
    ensures |s| == n && forall i :: 0 <= i < n ==> s[i] == LBound(i + 1)
  {
    seq(n, i requires 0 <= i < n => LBound(i + 1))
  }

  /** The rank's name in routine names: `scalar`, or the rank followed by `d`. */
  function NdName(rank: nat): string
  {
    if rank == 0 then "scalar" else Decimal.NatToString(rank) + "d"
  }

  /** The array-shape suffix of a declaration: empty for scalars, `(:,...,:)` otherwise. */
  function ShapeOf(rank: nat): string
  {
    if rank == 0 then "" else "(" + Join(Colons(rank), ",") + ")"
  }

  /** The lower bounds of a value of that rank: empty for scalars. */
  function LowerBoundOf(rank: nat): string
  {
    if rank == 0 then "" else "(" + Join(LBounds(rank), ",") + ")"
  }

  /** The dictionary before the loop: an empty suffix, then the keyword arguments, which win. */
  function BaseDict(kwargs: Dict): Dict
  {
    map["suffix" := Str("")] + kwargs
  }

  function SetType(d: Dict, ty: TypeInfo): Dict
  {
    d["typename" := Str(ty.typename)]["f_type" := Str(ty.fType)]["atk_type" := Str(ty.atkType)]["cpp_type" := Str(ty.cppType)]
  }

  function SetRank(d: Dict, index: nat, rank: nat): Dict
  {
    d["index" := Num(index)]["rank" := Num(rank)]["nd" := Str(NdName(rank))]
      ["shape" := Str(ShapeOf(rank))]["lower_bound" := Str(LowerBoundOf(rank))]
  }

  /** The dictionary a template receives for type `t` and rank `r`. */
  function EntryDict(kwargs: Dict, t: nat, r: nat): Dict
    requires t < |Types| && r <= MaxDims
  {
    SetRank(SetType(BaseDict(kwargs), Types[t]), t * (MaxDims + 1) + r, r)
  }

  /** The dictionaries the templates receive, in order: type-major, rank-minor. */
  function Entries(kwargs: Dict): (ds: seq<Dict>)
    ensures |ds| == NumMetabuffers()
  {
    seq(NumMetabuffers(), i requires 0 <= i < NumMetabuffers() => EntryDict(kwargs, i / (MaxDims + 1), i % (MaxDims + 1)))
  }

  /** Entry `t * 2 + r` of the enumeration is the one for type `t` and rank `r`. */
  lemma EntryAt(kwargs: Dict, t: nat, r: nat)
    requires t < |Types| && r <= MaxDims
    ensures t * (MaxDims + 1) + r < NumMetabuffers()
    ensures Entries(kwargs)[t * (MaxDims + 1) + r] == EntryDict(kwargs, t, r)
  {
    var i := t * (MaxDims + 1) + r;
    assert i / (MaxDims + 1) == t && i % (MaxDims + 1) == r;
  }

  /** The keys the loop sets for every entry. */
  predicate LoopKey(key: string)
  {
    key in {"typename", "f_type", "atk_type", "cpp_type", "index", "rank", "nd", "shape", "lower_bound"}
  }

  /** Setting the keys of a later entry over an earlier one gives the later entry. */
  lemma SetRankTwice(d: Dict, i0: nat, r0: nat, i: nat, r: nat)
    ensures SetRank(SetRank(d, i0, r0), i, r) == SetRank(d, i, r)
  {
    var a := SetRank(SetRank(d, i0, r0), i, r);
    var b := SetRank(d, i, r);
    assert a.Keys == b.Keys;
    forall k | k in a.Keys
      ensures a[k] == b[k]
    {
    }
  }

  lemma SetTypeOverRank(d: Dict, ty0: TypeInfo, i0: nat, r0: nat, ty: TypeInfo, i: nat, r: nat)
    ensures SetRank(SetType(SetRank(SetType(d, ty0), i0, r0), ty), i, r) == SetRank(SetType(d, ty), i, r)
  {
    var a := SetRank(SetType(SetRank(SetType(d, ty0), i0, r0), ty), i, r);
    var b := SetRank(SetType(d, ty), i, r);
    assert a.Keys == b.Keys;
    forall k | k in a.Keys
      ensures a[k] == b[k]
    {
    }
  }

  // -----------------------------------------------------------------------
  // Properties of the enumeration
  // -----------------------------------------------------------------------

  /** Entry `i` carries index `i`, the type `i / 2` and the rank `i % 2`. */
  lemma EntryOrder(kwargs: Dict, i: nat)
    requires i < NumMetabuffers()
    ensures Entries(kwargs)[i]["index"] == Num(i)
    ensures Entries(kwargs)[i]["typename"] == Str(Types[i / (MaxDims + 1)].typename)
    ensures Entries(kwargs)[i]["rank"] == Num(i % (MaxDims + 1))
  {
  }

  /** Rank 0 is named `scalar` with no shape; rank 1 is named `1d` with shape `(:)`. */
  lemma EntryShapes(kwargs: Dict, i: nat)
    requires i < NumMetabuffers()
    ensures Entries(kwargs)[i]["rank"] == Num(0) ==>
      Entries(kwargs)[i]["nd"] == Str("scalar") && Entries(kwargs)[i]["shape"] == Str("")
      && Entries(kwargs)[i]["lower_bound"] == Str("")
    ensures Entries(kwargs)[i]["rank"] == Num(1) ==>
      Entries(kwargs)[i]["nd"] == Str("1d") && Entries(kwargs)[i]["shape"] == Str("(:)")
      && Entries(kwargs)[i]["lower_bound"] == Str("(" + LBound(1) + ")")
  {
    var t, r := i / (MaxDims + 1), i % (MaxDims + 1);
    EntryAt(kwargs, t, r);
    EntryDictShape(kwargs, t, r);
    RankOneStrings();
  }

  /** The rank keys of the dictionary for type `t` and rank `r`. */
  lemma EntryDictShape(kwargs: Dict, t: nat, r: nat)
    requires t < |Types| && r <= MaxDims
    ensures EntryDict(kwargs, t, r)["rank"] == Num(r) && EntryDict(kwargs, t, r)["nd"] == Str(NdName(r))
    ensures EntryDict(kwargs, t, r)["shape"] == Str(ShapeOf(r))
    ensures EntryDict(kwargs, t, r)["lower_bound"] == Str(LowerBoundOf(r))
  {
  }

  /** The rank-1 name, shape and lower bound. */
  lemma RankOneStrings()
    ensures NdName(1) == "1d" && ShapeOf(1) == "(:)" && LowerBoundOf(1) == "(" + LBound(1) + ")"
  {
    RankOneName();
    RankOneShape();
    RankOneLowerBound();
  }

  lemma RankOneName()
    ensures NdName(1) == "1d"
  {
    assert Decimal.NatToString(1) == "1";
  }

  lemma RankOneShape()
    ensures ShapeOf(1) == "(:)"
  {
    assert Join(Colons(1), ",") == ":";
  }

  lemma RankOneLowerBound()
    ensures LowerBoundOf(1) == "(" + LBound(1) + ")"
  {
    assert Join(LBounds(1), ",") == LBound(1);
  }

  /** The lower bound of dimension 1 is `lbound(value,1)`. */
  lemma LBoundOne()
    ensures LBound(1) == "lbound(value,1)"
  {
    assert Decimal.NatToString(1) == "1";
  }

  /**
   * A shape of rank n >= 1 has n colons separated by single commas between
   * its parentheses.
   */
  lemma {:induction false} ShapeChars(n: nat)
    requires n >= 1
    ensures |Join(Colons(n), ",")| == 2 * n - 1
    ensures forall k :: 0 <= k < 2 * n - 1 ==> Join(Colons(n), ",")[k] == if k % 2 == 0 then ':' else ','
  {
    if n > 1 {
      ShapeChars(n - 1);
      assert Colons(n)[1..] == Colons(n - 1);
      assert Join(Colons(n), ",") == ":" + "," + Join(Colons(n - 1), ",");
    }
  }

  /**
   * The keyword arguments reach every entry unless the loop sets the same
   * key; the suffix is empty unless a keyword argument gives one.
   */
  lemma KeywordArguments(kwargs: Dict, i: nat, key: string)
    requires i < NumMetabuffers() && !LoopKey(key)
    ensures key in kwargs ==> key in Entries(kwargs)[i] && Entries(kwargs)[i][key] == kwargs[key]
    ensures key !in kwargs ==> (key in Entries(kwargs)[i] <==> key == "suffix")
    ensures "suffix" in Entries(kwargs)[i]
    ensures "suffix" !in kwargs ==> Entries(kwargs)[i]["suffix"] == Str("")
  {
  }

  // -----------------------------------------------------------------------
  // Running a template over a sequence of dictionaries
  // -----------------------------------------------------------------------

  /** The lines appended and how the run ended: at the first template error, if any. */
  datatype Emitted = Emitted(out: seq<string>, outcome: Outcome<string>)

  /** A template applied to each dictionary in turn, stopping at the first error. */
  function Run(fcn: Dict -> Result<string, string>, ds: seq<Dict>): (e: Emitted)
    ensures |e.out| <= |ds|
    ensures e.outcome.Pass? ==> |e.out| == |ds|
  {
    if |ds| == 0 then Emitted([], Pass)
    else
      var prev := Run(fcn, ds[..|ds| - 1]);
      if prev.outcome.Fail? then prev
      else match fcn(ds[|ds| - 1])
        case Err(e) => Emitted(prev.out, Fail(e))
        case Ok(s) => Emitted(prev.out + [s], Pass)
  }

  lemma RunStep(fcn: Dict -> Result<string, string>, ds: seq<Dict>, k: nat)
    requires k < |ds| && Run(fcn, ds[..k]).outcome.Pass?
    ensures fcn(ds[k]).Err? ==> Run(fcn, ds[..k + 1]) == Emitted(Run(fcn, ds[..k]).out, Fail(fcn(ds[k]).error))
    ensures fcn(ds[k]).Ok? ==> Run(fcn, ds[..k + 1]) == Emitted(Run(fcn, ds[..k]).out + [fcn(ds[k]).value], Pass)
  {
    assert ds[..k + 1][..k] == ds[..k];
  }

  /** Once a run has failed, later dictionaries change nothing. */
  lemma {:induction false} RunFailStays(fcn: Dict -> Result<string, string>, ds: seq<Dict>, k: nat)
    requires k <= |ds| && Run(fcn, ds[..k]).outcome.Fail?
    ensures Run(fcn, ds) == Run(fcn, ds[..k])
    decreases |ds| - k
  {
    if k < |ds| {
      assert ds[..k + 1][..k] == ds[..k];
      RunFailStays(fcn, ds, k + 1);
    } else {
      assert ds[..k] == ds;
    }
  }

  /** A template that fails on none of the dictionaries produces one line for each, in order. */
  lemma {:induction false} RunAllOk(fcn: Dict -> Result<string, string>, ds: seq<Dict>)
    requires forall i :: 0 <= i < |ds| ==> fcn(ds[i]).Ok?
    ensures Run(fcn, ds).outcome.Pass?
    ensures Run(fcn, ds).out == seq(|ds|, i requires 0 <= i < |ds| => fcn(ds[i]).value)
  {
    if |ds| > 0 {
      var front := ds[..|ds| - 1];
      assert forall i :: 0 <= i < |front| ==> front[i] == ds[i];
      RunAllOk(fcn, front);
    }
  }

  /** A list of output lines that other code appends to. */
  class LineList {
    var items: seq<string>

    constructor()
      ensures items == []
    {
      items := [];
    }
  }

  /** The scalar entry of type `t`, as the loop writes it over the previous entry. */
  lemma ScalarEntry(kwargs: Dict, t: nat, d: Dict)
    requires t < |Types|
    requires t == 0 ==> d == BaseDict(kwargs)
    requires t > 0 ==> d == Entries(kwargs)[t * (MaxDims + 1) - 1]
    ensures d["typename" := Str(Types[t].typename)]["f_type" := Str(Types[t].fType)]
      ["atk_type" := Str(Types[t].atkType)]["cpp_type" := Str(Types[t].cppType)]["index" := Num(t * (MaxDims + 1))]
      ["rank" := Num(0)]["nd" := Str("scalar")]["shape" := Str("")]["lower_bound" := Str("")]
      == Entries(kwargs)[t * (MaxDims + 1)]
  {
    EntryAt(kwargs, t, 0);
    if t > 0 {
      EntryAt(kwargs, t - 1, MaxDims);
      SetTypeOverRank(BaseDict(kwargs), Types[t - 1], (t - 1) * (MaxDims + 1) + MaxDims, MaxDims, Types[t], t * (MaxDims + 1), 0);
    }
  }

  /** The rank-`k` entry of type `t`, as the loop writes it over the rank `k - 1` entry. */
  lemma ArrayEntry(kwargs: Dict, t: nat, k: nat, d: Dict, shape: seq<string>, lbound: seq<string>)
    requires t < |Types| && 1 <= k <= MaxDims
    requires d == Entries(kwargs)[t * (MaxDims + 1) + k - 1]
    requires shape == Colons(MaxDims + 1) && lbound == LBounds(MaxDims + 1)
    ensures d["index" := Num(t * (MaxDims + 1) + k)]["rank" := Num(k)]["nd" := Str(Decimal.NatToString(k) + "d")]
      ["shape" := Str("(" + Join(shape[..k], ",") + ")")]["lower_bound" := Str("(" + Join(lbound[..k], ",") + ")")]
      == Entries(kwargs)[t * (MaxDims + 1) + k]
  {
    assert shape[..k] == Colons(k) && lbound[..k] == LBounds(k);
    EntryAt(kwargs, t, k - 1);
    EntryAt(kwargs, t, k);
    var idx := t * (MaxDims + 1) + k;
    var ranked := SetType(BaseDict(kwargs), Types[t]);
    assert Str(Decimal.NatToString(k) + "d") == Str(NdName(k));
    SetRankTwice(ranked, idx - 1, k - 1, idx, k);
  }

  /**
   * One template call of the loop: the result is appended when it is not an
   * error, and the run so far extends by that call.
   */
  method EmitEntry(lines: LineList, fcn: Dict -> Result<string, string>, d: Dict, ghost ds: seq<Dict>, ghost k: nat,
                   ghost start: seq<string>) returns (s: Result<string, string>)
    requires k < |ds| && d == ds[k]
    requires Run(fcn, ds[..k]).outcome.Pass? && lines.items == start + Run(fcn, ds[..k]).out
    modifies lines
    ensures s.Err? ==> (Run(fcn, ds) == Run(fcn, ds[..k + 1]) && Run(fcn, ds[..k + 1]).outcome == Fail(s.error)
      && lines.items == start + Run(fcn, ds).out)
    ensures s.Ok? ==> Run(fcn, ds[..k + 1]).outcome.Pass? && lines.items == start + Run(fcn, ds[..k + 1]).out
  {
    s := fcn(d);
    RunStep(fcn, ds, k);
    if s.Err? {
      RunFailStays(fcn, ds, k + 1);
      return;
    }
    lines.items := lines.items + [s.value];
  }

  /**
   * `foreach_value`: calls the template once per type and rank, with the
   * dictionary that combines the keyword arguments with the type and rank
   * keys, and appends each result to `lines`. A template error stops the
   * loop, after the lines already appended.
   */
  method ForeachValue(lines: LineList, fcn: Dict -> Result<string, string>, kwargs: Dict) returns (r: Outcome<string>)
    modifies lines
    ensures lines.items == old(lines.items) + Run(fcn, Entries(kwargs)).out
    ensures r == Run(fcn, Entries(kwargs)).outcome
  {
    var shape: seq<string> := [];
    var lbound: seq<string> := [];
    var nd := 0;
    while nd < MaxDims + 1
      invariant 0 <= nd <= MaxDims + 1
      invariant shape == Colons(nd) && lbound == LBounds(nd)
    {
      shape := shape + [":"];
      lbound := lbound + ["lbound(value," + Decimal.NatToString(nd + 1) + ")"];
      nd := nd + 1;
    }
    var d := map["suffix" := Str("")] + kwargs;
    ghost var ds := Entries(kwargs);
    ghost var start := lines.items;
    var indx := 0;
    var t := 0;
    while t < |Types|
      invariant 0 <= t <= |Types| && indx == t * (MaxDims + 1)
      invariant Run(fcn, ds[..indx]).outcome.Pass?
      invariant lines.items == start + Run(fcn, ds[..indx]).out
      invariant t == 0 ==> d == BaseDict(kwargs)
      invariant t > 0 ==> d == ds[indx - 1]
    {
      var ty := Types[t];
      ScalarEntry(kwargs, t, d);
      d := d["typename" := Str(ty.typename)]["f_type" := Str(ty.fType)]["atk_type" := Str(ty.atkType)]["cpp_type" := Str(ty.cppType)];
      d := d["index" := Num(indx)];
      indx := indx + 1;
      d := d["rank" := Num(0)]["nd" := Str("scalar")]["shape" := Str("")]["lower_bound" := Str("")];
      var s := EmitEntry(lines, fcn, d, ds, indx - 1, start);
      if s.Err? {
        return Fail(s.error);
      }
      var k := 1;
      while k < MaxDims + 1
        invariant 1 <= k <= MaxDims + 1 && indx == t * (MaxDims + 1) + k
        invariant d == ds[indx - 1]
        invariant Run(fcn, ds[..indx]).outcome.Pass?
        invariant lines.items == start + Run(fcn, ds[..indx]).out
      {
        ArrayEntry(kwargs, t, k, d, shape, lbound);
        d := d["index" := Num(indx)];
        indx := indx + 1;
        d := d["rank" := Num(k)]["nd" := Str(Decimal.NatToString(k) + "d")]
          ["shape" := Str("(" + Join(shape[..k], ",") + ")")]["lower_bound" := Str("(" + Join(lbound[..k], ",") + ")")];
        s := EmitEntry(lines, fcn, d, ds, indx - 1, start);
        if s.Err? {
          return Fail(s.error);
        }
        k := k + 1;
      }
      t := t + 1;
    }
    assert ds[..indx] == ds;
    return Pass;
  }

  // -----------------------------------------------------------------------
  // Type-bound procedures and their generic binding
  // -----------------------------------------------------------------------

  /** `type_bound_procedure_generic`: `<stem>_<typename>_<nd><suffix>`. */
  function GenericName(d: Dict): (r: Result<string, string>)
    ensures r.Ok? <==> "stem" in d && "typename" in d && "nd" in d && "suffix" in d
    ensures r.Ok? ==> r.value == Render(d["stem"]) + "_" + Render(d["typename"]) + "_" + Render(d["nd"]) + Render(d["suffix"])
  {
    match Fields(d, ["stem", "typename", "nd", "suffix"])
    case Err(e) => Err(e)
    case Ok(f) => Ok(f[0] + "_" + f[1] + "_" + f[2] + f[3])
  }

  /** `type_bound_procedure_part`: binds the generic's name to the wrapper routine of the same name. */
  function ProcedurePart(d: Dict): Result<string, string>
  {
    match Fields(d, ["stem", "typename", "nd", "suffix", "wrap_class"])
    case Err(e) => Err(e)
    case Ok(f) =>
      var name := f[0] + "_" + f[1] + "_" + f[2] + f[3];
      Ok("procedure :: " + name + " => " + f[4] + "_" + name)
  }

  /**
   * The procedure part succeeds exactly when the generic name does and a
   * wrapper class is given, and it maps that generic name to the wrapper
   * class, an underscore, and the same name.
   */
  lemma PartBindsGeneric(d: Dict)
    ensures ProcedurePart(d).Ok? <==> GenericName(d).Ok? && "wrap_class" in d
    ensures ProcedurePart(d).Ok? ==> (ProcedurePart(d).value
      == "procedure :: " + GenericName(d).value + " => " + Render(d["wrap_class"]) + "_" + GenericName(d).value)
  {
    var f := Fields(d, ["stem", "typename", "nd", "suffix", "wrap_class"]);
    if !f.Ok? {
      var i :| 0 <= i < 5 && ["stem", "typename", "nd", "suffix", "wrap_class"][i] !in d;
    }
  }

  /**
   * Over the whole enumeration, with a stem and a wrapper class given, the
   * generic names are `<stem>_<type>_<rank name><suffix>` in enumeration
   * order, and the procedure parts bind each of them in the same order.
   */
  lemma TypeBoundProcedures(kwargs: Dict)
    requires "stem" in kwargs && "wrap_class" in kwargs
    ensures Run(GenericName, Entries(kwargs)).outcome.Pass?
    ensures Run(ProcedurePart, Entries(kwargs)).outcome.Pass?
    ensures forall i :: 0 <= i < NumMetabuffers() ==>
      Run(GenericName, Entries(kwargs)).out[i]
        == Render(kwargs["stem"]) + "_" + Types[i / (MaxDims + 1)].typename + "_" + NdName(i % (MaxDims + 1))
          + Render(Entries(kwargs)[i]["suffix"])
    ensures forall i :: 0 <= i < NumMetabuffers() ==>
      Run(ProcedurePart, Entries(kwargs)).out[i]
        == "procedure :: " + Run(GenericName, Entries(kwargs)).out[i] + " => " + Render(kwargs["wrap_class"]) + "_"
          + Run(GenericName, Entries(kwargs)).out[i]
  {
    var ds := Entries(kwargs);
    forall i | 0 <= i < |ds|
      ensures GenericName(ds[i]).Ok? && ProcedurePart(ds[i]).Ok?
    {
      EntryProcedure(kwargs, i);
    }
    RunAllOk(GenericName, ds);
    RunAllOk(ProcedurePart, ds);
    forall i | 0 <= i < |ds|
      ensures Run(GenericName, ds).out[i]
        == Render(kwargs["stem"]) + "_" + Types[i / (MaxDims + 1)].typename + "_" + NdName(i % (MaxDims + 1))
          + Render(ds[i]["suffix"])
      ensures Run(ProcedurePart, ds).out[i]
        == "procedure :: " + Run(GenericName, ds).out[i] + " => " + Render(kwargs["wrap_class"]) + "_"
          + Run(GenericName, ds).out[i]
    {
      EntryProcedure(kwargs, i);
    }
  }

  /** The generic name and procedure part of one entry of the enumeration. */
  lemma EntryProcedure(kwargs: Dict, i: nat)
    requires "stem" in kwargs && "wrap_class" in kwargs && i < NumMetabuffers()
    ensures GenericName(Entries(kwargs)[i]).Ok? && ProcedurePart(Entries(kwargs)[i]).Ok?
    ensures GenericName(Entries(kwargs)[i]).value
      == Render(kwargs["stem"]) + "_" + Types[i / (MaxDims + 1)].typename + "_" + NdName(i % (MaxDims + 1))
        + Render(Entries(kwargs)[i]["suffix"])
    ensures ProcedurePart(Entries(kwargs)[i]).value
      == "procedure :: " + GenericName(Entries(kwargs)[i]).value + " => " + Render(kwargs["wrap_class"]) + "_"
        + GenericName(Entries(kwargs)[i]).value
  {
    var d := Entries(kwargs)[i];
    KeywordArguments(kwargs, i, "stem");
    KeywordArguments(kwargs, i, "wrap_class");
    EntryOrder(kwargs, i);
    assert d["nd"] == Str(NdName(i % (MaxDims + 1)));
    PartBindsGeneric(d);
  }

  function GenericHeader(stem: string): string
  {
    "generic :: " + stem + " => &"
  }

  /** The generic binding: the header, each generic but the last followed by `,  &`, then the last. */
  function GenericBlock(generics: seq<string>, stem: string): (b: seq<string>)
    requires |generics| > 0
    ensures |b| == |generics| + 1
  {
    [GenericHeader(stem)]
      + seq(|generics| - 1, i requires 0 <= i < |generics| - 1 => "    " + generics[i] + ",  &")
      + ["    " + generics[|generics| - 1]]
  }

  /**
   * `type_bound_procedure_generic_post`: appends the header, then one
   * indented line per generic, every one but the last continued by `,  &`.
   * An empty list of generics fails on its last element, after the header
   * has been appended.
   */
  method GenericPost(lines: LineList, generics: seq<string>, stem: string) returns (r: Outcome<string>)
    modifies lines
    ensures r.Fail? <==> |generics| == 0
    ensures r.Fail? ==> lines.items == old(lines.items) + [GenericHeader(stem)]
    ensures r.Pass? ==> lines.items == old(lines.items) + GenericBlock(generics, stem)
  {
    lines.items := lines.items + ["generic :: " + stem + " => &"];
    var front := if |generics| == 0 then [] else generics[..|generics| - 1];
    var i := 0;
    while i < |front|
      invariant 0 <= i <= |front|
      invariant lines.items == old(lines.items) + [GenericHeader(stem)] + seq(i, j requires 0 <= j < i => "    " + front[j] + ",  &")
    {
      lines.items := lines.items + ["    " + front[i] + ",  &"];
      i := i + 1;
    }
    if |generics| == 0 {
      return Fail("IndexError: list index out of range");
    }
    lines.items := lines.items + ["    " + generics[|generics| - 1]];
    return Pass;
  }

  /** The generic names read back from a binding: each line after the header without its indent and continuation mark. */
  function GenericsOf(block: seq<string>): seq<string>
    requires |block| >= 2
    requires forall i :: 1 <= i < |block| - 1 ==> |block[i]| >= 8
    requires |block[|block| - 1]| >= 4
  {
    seq(|block| - 1, i requires 0 <= i < |block| - 1 =>
      if i < |block| - 2 then block[i + 1][4..|block[i + 1]| - 4] else block[i + 1][4..])
  }

  /**
   * Every line of a binding but the last ends in a continuation mark, and
   * the generic names can be read back from it in their original order.
   */
  lemma GenericBlockRoundTrip(generics: seq<string>, stem: string)
    requires |generics| > 0
    ensures var b := GenericBlock(generics, stem);
      b[0] == GenericHeader(stem)
      && (forall i :: 0 <= i < |b| - 1 ==> b[i][|b[i]| - 1] == '&')
      && |b[|b| - 1]| >= 4 && (forall i :: 1 <= i < |b| - 1 ==> |b[i]| >= 8)
      && GenericsOf(b) == generics
  {
    var b := GenericBlock(generics, stem);
    var n := |generics|;
    forall i | 1 <= i < |b| - 1
      ensures b[i] == "    " + generics[i - 1] + ",  &"
    {
    }
    assert b[n] == "    " + generics[n - 1];
    var g := GenericsOf(b);
    forall i | 0 <= i < n
      ensures g[i] == generics[i]
    {
      if i < n - 1 {
        assert b[i + 1] == "    " + generics[i] + ",  &";
        assert b[i + 1][4..|b[i + 1]| - 4] == generics[i];
      } else {
        assert b[i + 1][4..] == generics[i];
      }
    }
  }

  // -----------------------------------------------------------------------
  // Rank-dependent templates
  // -----------------------------------------------------------------------

  /** The lines of a routine's text, one per line. */
  function Text(ls: seq<string>): string
  {
    Join(ls, "\n")
  }

  /** The element count of `create_array_view`: one for a scalar, the array's size otherwise. */
  function ArrayViewSize(rank: Value): (s: string)
    ensures s == "1_C_LONG" <==> rank == Num(0)
    ensures rank != Num(0) ==> s == "size(value, kind=1_C_LONG)"
  {
    if rank == Num(0) then "1_C_LONG" else "size(value, kind=1_C_LONG)"
  }

  /**
   * The error Python raises when a template passes `size=` explicitly and
   * the dictionary it spreads after it holds a `size` key as well.
   */
  const SizeTwice: string := "TypeError: format() got multiple values for keyword argument 'size'"

  /**
   * `create_array_view`: a view creation routine whose element count
   * depends on the rank. A dictionary holding its own `size` clashes with
   * the count the template passes under that name.
   */
  function CreateArrayView(d: Dict): (r: Result<string, string>)
    ensures "rank" in d && "size" in d ==> r == Err(SizeTwice)
    ensures r.Ok? <==> ("rank" in d && "size" !in d
      && "typename" in d && "nd" in d && "f_type" in d && "shape" in d && "atk_type" in d)
  {
    if "rank" !in d then Err(KeyError("rank"))
    else if "size" in d then Err(SizeTwice)
    else
      var size := ArrayViewSize(d["rank"]);
      match Fields(d, ["typename", "nd", "f_type", "shape", "atk_type"])
      case Err(e) => Err(e)
      case Ok(f) =>
        var name := "datagroup_create_array_view_" + f[0] + "_" + f[1];
        Ok(Text([
          "function " + name + "(group, name, value) result(rv)",
          "    " + f[2] + ", target, intent(IN) :: value" + f[3],
          "    integer(C_INT), parameter :: type = " + f[4],
          "    nitems = " + size,
          "end function " + name]))
  }

  /** `print_get_value`: a pointer getter for ranks 0 and 1; any other rank is an error. */
  function PrintGetValue(d: Dict): (r: Result<string, string>)
    ensures "rank" in d && d["rank"] != Num(0) && d["rank"] != Num(1) ==> r == Err("rank too large in print_get_value")
    ensures r.Ok? <==> ("rank" in d && (d["rank"] == Num(0) || d["rank"] == Num(1))
      && "typename" in d && "nd" in d && "suffix" in d && "f_type" in d && "shape" in d)
  {
    if "rank" !in d then Err(KeyError("rank"))
    else if d["rank"] != Num(0) && d["rank"] != Num(1) then Err("rank too large in print_get_value")
    else match Fields(d, ["typename", "nd", "suffix", "f_type", "shape"])
      case Err(e) => Err(e)
      case Ok(f) =>
        var name := "dataview_get_value_" + f[0] + "_" + f[1] + f[2];
        var decl := "    " + f[3] + ", pointer, intent(OUT) :: value" + f[4];
        if d["rank"] == Num(0) then
          Ok(Text(["subroutine " + name + "(view, value)", decl,
            "    call c_f_pointer(cptr, value)", "end subroutine " + name]))
        else
          Ok(Text(["subroutine " + name + "(view, value)", decl,
            "    nelems = view%get_number_of_elements()",
            "    call c_f_pointer(cptr, value, [ nelems ])", "end subroutine " + name]))
  }

  /**
   * `print_atk_allocate_allocatable`: an allocation routine for ranks 0
   * and 1; any other rank is an error, and so is a dictionary holding its
   * own `size`, which clashes with the allocation bounds the template
   * passes under that name.
   */
  function PrintAllocateAllocatable(d: Dict): (r: Result<string, string>)
    ensures "rank" in d && d["rank"] != Num(0) && d["rank"] != Num(1) ==> r == Err("NotImplementedError")
    ensures "rank" in d && (d["rank"] == Num(0) || d["rank"] == Num(1)) && "size" in d ==> r == Err(SizeTwice)
    ensures r.Ok? <==> ("rank" in d && (d["rank"] == Num(0) || d["rank"] == Num(1)) && "size" !in d
      && "typename" in d && "nd" in d && "f_type" in d && "shape" in d)
  {
    if "rank" !in d then Err(KeyError("rank"))
    else if d["rank"] != Num(0) && d["rank"] != Num(1) then Err("NotImplementedError")
    else if "size" in d then Err(SizeTwice)
    else
      var size := if d["rank"] == Num(0) then "" else "(nitems)";
      match Fields(d, ["typename", "nd", "f_type", "shape"])
      case Err(e) => Err(e)
      case Ok(f) =>
        var name := "atk_allocate_allocatable_" + f[0] + "_" + f[1];
        Ok(Text([
          "subroutine " + name + "(array, nitems)",
          "    " + f[2] + ", allocatable, intent(OUT), target :: array" + f[3],
          "    allocate(array" + size + ")",
          "end subroutine " + name]))
  }

  /** `print_atk_size_allocatable`: the size is 1 for a scalar, and the allocated size or 0 otherwise. */
  function PrintSizeAllocatable(d: Dict): (r: Result<string, string>)
    ensures r.Ok? <==> "rank" in d && "typename" in d && "nd" in d && "f_type" in d && "shape" in d
  {
    if "rank" !in d then Err(KeyError("rank"))
    else match Fields(d, ["typename", "nd", "f_type", "shape"])
      case Err(e) => Err(e)
      case Ok(f) =>
        var name := "atk_size_allocatable_" + f[0] + "_" + f[1];
        var decl := "    " + f[2] + ", allocatable, intent(IN) :: array" + f[3];
        if d["rank"] == Num(0) then
          Ok(Text(["function " + name + "(array) result(rv)", decl, "    rv = 1", "end function " + name]))
        else
          Ok(Text(["function " + name + "(array) result(rv)", decl,
            "    if (allocated(array)) then", "        rv = size(array)", "    else", "        rv = 0", "    endif",
            "end function " + name]))
  }

  /** Every dictionary of the enumeration has a rank of at most one and all the type and rank keys. */
  lemma EntriesComplete(kwargs: Dict, i: nat)
    requires i < NumMetabuffers()
    ensures var d := Entries(kwargs)[i];
      "rank" in d && (d["rank"] == Num(0) || d["rank"] == Num(1))
      && "typename" in d && "nd" in d && "f_type" in d && "shape" in d && "atk_type" in d && "suffix" in d
    ensures "size" in Entries(kwargs)[i] <==> "size" in kwargs
  {
    KeywordArguments(kwargs, i, "size");
  }

  /**
   * Since the enumeration stops at rank one, none of the rank-dependent
   * templates fails on it when the keyword arguments hold no `size`: each
   * produces all eight routines.
   */
  lemma RankTemplatesNeverFail(kwargs: Dict)
    requires "size" !in kwargs
    ensures Run(CreateArrayView, Entries(kwargs)).outcome.Pass?
    ensures Run(PrintGetValue, Entries(kwargs)).outcome.Pass?
    ensures Run(PrintAllocateAllocatable, Entries(kwargs)).outcome.Pass?
    ensures Run(PrintSizeAllocatable, Entries(kwargs)).outcome.Pass?
    ensures |Run(PrintGetValue, Entries(kwargs)).out| == NumMetabuffers()
  {
    var ds := Entries(kwargs);
    forall i | 0 <= i < |ds|
      ensures CreateArrayView(ds[i]).Ok? && PrintGetValue(ds[i]).Ok?
      ensures PrintAllocateAllocatable(ds[i]).Ok? && PrintSizeAllocatable(ds[i]).Ok?
    {
      EntriesComplete(kwargs, i);
      var f := Fields(ds[i], ["typename", "nd", "suffix", "f_type", "shape"]);
      var g := Fields(ds[i], ["typename", "nd", "f_type", "shape"]);
      assert f.Ok? && g.Ok?;
    }
    RunAllOk(CreateArrayView, ds);
    RunAllOk(PrintGetValue, ds);
    RunAllOk(PrintAllocateAllocatable, ds);
    RunAllOk(PrintSizeAllocatable, ds);
  }

  /**
   * A `size` keyword argument reaches every dictionary, so the two
   * templates that pass their own `size` fail on the very first one and
   * produce nothing.
   */
  lemma SizeKeywordFails(kwargs: Dict)
    requires "size" in kwargs
    ensures Run(CreateArrayView, Entries(kwargs)) == Emitted([], Fail(SizeTwice))
    ensures Run(PrintAllocateAllocatable, Entries(kwargs)) == Emitted([], Fail(SizeTwice))
  {
    var ds := Entries(kwargs);
    EntriesComplete(kwargs, 0);
    assert ds[..0] == [];
    RunStep(CreateArrayView, ds, 0);
    RunStep(PrintAllocateAllocatable, ds, 0);
    RunFailStays(CreateArrayView, ds, 1);
    RunFailStays(PrintAllocateAllocatable, ds, 1);
  }
}
