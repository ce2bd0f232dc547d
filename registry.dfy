/**
 * The RSU configuration of rsu_logger_for_rounds.py: the checks of
 * `load_and_validate_rsus` on the decoded JSON file, and
 * `pick_closest_rsu`, the nearest in-range RSU of a vehicle position.
 */
module Registry {
  import opened Wrappers
  import opened Geometry

  /** A decoded JSON value; an object keeps its keys in file order. */
  datatype Json =
    | JNull
    | JBool(b: bool)
    | JInt(i: int)
    | JFloat(f: real)
    | JString(s: string)
    | JArray(items: seq<Json>)
    | JObject(fields: seq<(string, Json)>)

  /** An RSU with its id, position and coverage radius. */
  datatype Rsu = Rsu(id: string, pos: Point, radius: real)

  /** The `ValueError`s raised by `load_and_validate_rsus`. */
  datatype ConfigError =
    | NotNonEmptyObject
    | NotAnObject(rsu: string)
    | MissingKey(rsu: string, key: string)
    | NotNumeric(rsu: string, key: string)
    | NonPositiveRadius(rsu: string)

  ghost predicate DistinctKeys<V>(fields: seq<(string, V)>)
  {
    forall i, j :: 0 <= i < j < |fields| ==> fields[i].0 != fields[j].0
  }

  /** `json.load` yields dictionaries, so keys are distinct at the two levels inspected. */
  ghost predicate Decoded(j: Json)
  {
    j.JObject? ==>
      && DistinctKeys(j.fields)
      && forall i :: 0 <= i < |j.fields| && j.fields[i].1.JObject? ==> DistinctKeys(j.fields[i].1.fields)
  }

  /** The registry that validation produces: distinct ids, every radius positive. */
  ghost predicate IsRegistry(reg: seq<Rsu>)
  {
    && (forall i, j :: 0 <= i < j < |reg| ==> reg[i].id != reg[j].id)
    && (forall i :: 0 <= i < |reg| ==> reg[i].radius > 0.0)
  }

  /** `RSUS.keys()`. */
  function Ids(reg: seq<Rsu>): (ids: set<string>)
    ensures forall i :: 0 <= i < |reg| ==> reg[i].id in ids
  {
    set i | 0 <= i < |reg| :: reg[i].id
  }

  function Lookup(fields: seq<(string, Json)>, key: string): (r: Option<Json>)
    ensures r.Some? <==> exists i :: 0 <= i < |fields| && fields[i].0 == key
    ensures r.Some? ==> exists i :: 0 <= i < |fields| && fields[i] == (key, r.value)
  {
    if fields == [] then None
    else if fields[0].0 == key then Some(fields[0].1)
    else Lookup(fields[1..], key)
  }

  /** `isinstance(v, (int, float))`; a Python `bool` is an `int`. */
  predicate IsNumber(v: Json)
  {
    v.JInt? || v.JFloat? || v.JBool?
  }

  function NumberValue(v: Json): real
    requires IsNumber(v)
  {
    match v
    case JInt(i) => i as real
    case JFloat(f) => f
    case JBool(b) => if b then 1.0 else 0.0
  }

  /** The field `key` of an RSU entry is present and numeric. */
  predicate HasNumber(cfg: seq<(string, Json)>, key: string)
  {
    var v := Lookup(cfg, key);
    v.Some? && IsNumber(v.value)
  }

  function FieldError(id: string, cfg: seq<(string, Json)>, key: string): (r: Option<ConfigError>)
    ensures r.None? <==> HasNumber(cfg, key)
    ensures r.Some? ==> r.value == MissingKey(id, key) || r.value == NotNumeric(id, key)
  {
    match Lookup(cfg, key)
    case None => Some(MissingKey(id, key))
    case Some(v) => if IsNumber(v) then None else Some(NotNumeric(id, key))
  }

  /** An entry is acceptable: an object with numeric x, y, radius and radius > 0. */
  predicate ValidEntry(cfg: Json)
  {
    && cfg.JObject?
    && HasNumber(cfg.fields, "x") && HasNumber(cfg.fields, "y") && HasNumber(cfg.fields, "radius")
    && NumberValue(Lookup(cfg.fields, "radius").value) > 0.0
  }

  /** The first complaint about one entry, in the order the source checks. */
  function EntryError(id: string, cfg: Json): (r: Option<ConfigError>)
    ensures r.None? <==> ValidEntry(cfg)
    ensures r.Some? ==> !r.value.NotNonEmptyObject? && r.value.rsu == id
    ensures r == Some(NotAnObject(id)) <==> !cfg.JObject?
    ensures cfg.JObject? && FieldError(id, cfg.fields, "x").Some? ==> r == FieldError(id, cfg.fields, "x")
    ensures (cfg.JObject? && HasNumber(cfg.fields, "x") && FieldError(id, cfg.fields, "y").Some?)
      ==> r == FieldError(id, cfg.fields, "y")
    ensures (cfg.JObject? && HasNumber(cfg.fields, "x") && HasNumber(cfg.fields, "y")
             && FieldError(id, cfg.fields, "radius").Some?)
      ==> r == FieldError(id, cfg.fields, "radius")
    ensures (cfg.JObject? && HasNumber(cfg.fields, "x") && HasNumber(cfg.fields, "y") && HasNumber(cfg.fields, "radius")
             && NumberValue(Lookup(cfg.fields, "radius").value) <= 0.0)
      ==> r == Some(NonPositiveRadius(id))
  {
    if !cfg.JObject? then Some(NotAnObject(id))
    else
      var ex := FieldError(id, cfg.fields, "x");
      if ex.Some? then ex else
      var ey := FieldError(id, cfg.fields, "y");
      if ey.Some? then ey else
      var er := FieldError(id, cfg.fields, "radius");
      if er.Some? then er
      else if NumberValue(Lookup(cfg.fields, "radius").value) <= 0.0 then Some(NonPositiveRadius(id))
      else None
  }

  function ToRsu(id: string, cfg: Json): (r: Rsu)
    requires ValidEntry(cfg)
    ensures r.id == id && r.radius > 0.0
  {
    Rsu(id, Point(NumberValue(Lookup(cfg.fields, "x").value), NumberValue(Lookup(cfg.fields, "y").value)),
        NumberValue(Lookup(cfg.fields, "radius").value))
  }

  /** `load_and_validate_rsus` after `json.load`. */
  method LoadAndValidate(j: Json) returns (r: Result<seq<Rsu>, ConfigError>)
    requires Decoded(j)
    ensures r == Failure(NotNonEmptyObject) <==> !j.JObject? || j.fields == []
    ensures r.Success? <==>
      j.JObject? && j.fields != [] && forall i :: 0 <= i < |j.fields| ==> ValidEntry(j.fields[i].1)
    ensures r.Success? ==>
      && |r.value| == |j.fields|
      && (forall i :: 0 <= i < |j.fields| ==> r.value[i] == ToRsu(j.fields[i].0, j.fields[i].1))
      && IsRegistry(r.value)
    ensures r.Failure? && j.JObject? && j.fields != [] ==>
      exists i :: 0 <= i < |j.fields| && Some(r.error) == EntryError(j.fields[i].0, j.fields[i].1)
        && forall i' :: 0 <= i' < i ==> ValidEntry(j.fields[i'].1)
  {
    if !j.JObject? || j.fields == [] {
      return Failure(NotNonEmptyObject);
    }
    var fields := j.fields;
    var reg: seq<Rsu> := [];
    var n := 0;
    while n < |fields|
      invariant 0 <= n <= |fields| && |reg| == n
      invariant forall i :: 0 <= i < n ==> ValidEntry(fields[i].1) && reg[i] == ToRsu(fields[i].0, fields[i].1)
    {
      var err := EntryError(fields[n].0, fields[n].1);
      if err.Some? {
        return Failure(err.value);
      }
      reg := reg + [ToRsu(fields[n].0, fields[n].1)];
      n := n + 1;
    }
    return Success(reg);
  }

  /** Vehicle at `p` is covered by `rsu`: `distance(p, rsu) <= radius`. */
  predicate InRange(dist: Metric, p: Point, rsu: Rsu)
  {
    dist(p, rsu.pos) <= rsu.radius
  }

  /**
   * Index of the best RSU among the first `n`, as the loop of
   * `pick_closest_rsu` has it after `n` iterations: a later RSU replaces the
   * best only when it is in range and strictly closer.
   */
  function ClosestIndex(reg: seq<Rsu>, dist: Metric, p: Point, n: nat): (r: Option<nat>)
    requires n <= |reg|
    ensures r.Some? ==> r.value < n
  {
    if n == 0 then None
    else
      var best := ClosestIndex(reg, dist, p, n - 1);
      var d := dist(p, reg[n - 1].pos);
      if d <= reg[n - 1].radius && (best.None? || d < dist(p, reg[best.value].pos)) then Some(n - 1)
      else best
  }

  /** The pair `(best_rsu, best_d)` when `best_rsu` is not `None`. */
  datatype Pick = Pick(rsu: string, d: real)

  function Closest(reg: seq<Rsu>, dist: Metric, p: Point): (r: Option<Pick>)
    ensures r.Some? ==> r.value.rsu in Ids(reg)
  {
    match ClosestIndex(reg, dist, p, |reg|)
    case None => None
    case Some(i) => Some(Pick(reg[i].id, dist(p, reg[i].pos)))
  }

  /**
   * What `pick_closest_rsu` promises: `None` exactly when no RSU is in range;
   * otherwise an in-range RSU whose distance is at most that of every
   * in-range RSU, and the first of those at that distance.
   */
  lemma {:induction false} ClosestIsFirstNearest(reg: seq<Rsu>, dist: Metric, p: Point, n: nat)
    requires n <= |reg|
    ensures ClosestIndex(reg, dist, p, n).None? <==> forall j :: 0 <= j < n ==> !InRange(dist, p, reg[j])
    ensures ClosestIndex(reg, dist, p, n).Some? ==>
      var i := ClosestIndex(reg, dist, p, n).value;
      && InRange(dist, p, reg[i])
      && (forall j :: 0 <= j < n && InRange(dist, p, reg[j]) ==> dist(p, reg[i].pos) <= dist(p, reg[j].pos))
      && (forall j :: 0 <= j < i && InRange(dist, p, reg[j]) ==> dist(p, reg[j].pos) > dist(p, reg[i].pos))
  {
    if n > 0 {
      ClosestIsFirstNearest(reg, dist, p, n - 1);
    }
  }

  /** The result of `Closest` names an RSU of the registry and carries its distance. */
  lemma ClosestIsInRegistry(reg: seq<Rsu>, dist: Metric, p: Point)
    ensures Closest(reg, dist, p).Some? ==>
      exists i :: 0 <= i < |reg| && reg[i].id == Closest(reg, dist, p).value.rsu
        && InRange(dist, p, reg[i]) && Closest(reg, dist, p).value.d == dist(p, reg[i].pos)
  {
    ClosestIsFirstNearest(reg, dist, p, |reg|);
  }

  /** `pick_closest_rsu`: one pass over the RSUs keeping the strictly closest in range. */
  method PickClosest(reg: seq<Rsu>, dist: Metric, p: Point) returns (best: Option<Pick>)
    ensures best == Closest(reg, dist, p)
  {
    best := None;
    ghost var bestIndex: Option<nat> := None;
    for n := 0 to |reg|
      invariant bestIndex == ClosestIndex(reg, dist, p, n)
      invariant best == (match bestIndex case None => None case Some(i) => Some(Pick(reg[i].id, dist(p, reg[i].pos))))
    {
      var d := dist(p, reg[n].pos);
      if d <= reg[n].radius {
        if best.None? || d < best.value.d {
          best := Some(Pick(reg[n].id, d));
          bestIndex := Some(n);
        }
      }
    }
  }
}
