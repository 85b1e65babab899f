/** The filter of historico: the query starts from every movement, gains a condition on the
    kind when the `tipo` parameter asks for one, then a lower and an upper date bound; a date
    that fails to parse stops the adding of further date conditions. Rows come newest first. */
module History {
  import opened Models

  /** timedelta(days=1), in the seconds that timestamps count. */
  const DAY: int := 86400

  /** A date parameter (f_ini, f_fin) after strptime: left blank, malformed, or the
      timestamp of midnight of the given day. */
  datatype DateArg = Blank | Malformed | Midnight(at: int)

  /** One `q.filter(...)` added to the query. */
  datatype Condition = KindIs(kind: char) | AtOrAfter(start: int) | Before(end: int)

  predicate Holds(c: Condition, m: Movement)
  {
    match c
    case KindIs(k) => m.kind == k
    case AtOrAfter(t) => t <= m.timestamp
    case Before(t) => m.timestamp < t
  }

  /** Conditions added for the (stripped, lower-cased) `tipo` parameter. */
  function KindConditions(kindParam: string): seq<Condition>
  {
    if kindParam == "entrada" || kindParam == "e" then [KindIs(ENTRY)]
    else if kindParam == "salida" || kindParam == "s" then [KindIs(EXIT)]
    else []
  }

  /** Conditions added for f_fin once the query gets that far. */
  function UpperConditions(to: DateArg): seq<Condition>
  {
    match to
    case Midnight(b) => [Before(b + DAY)]
    case _ => []
  }

  /** Conditions added inside the try block: a malformed f_ini raises before anything is added,
      a malformed f_fin raises after f_ini's condition is in place. */
  function DateConditions(from: DateArg, to: DateArg): seq<Condition>
  {
    match from
    case Malformed => []
    case Blank => UpperConditions(to)
    case Midnight(a) => [AtOrAfter(a)] + UpperConditions(to)
  }

  function Conditions(kindParam: string, from: DateArg, to: DateArg): seq<Condition>
  {
    KindConditions(kindParam) + DateConditions(from, to)
  }

  /** The kinds the `tipo` parameter lets through: only 'E' for "entrada"/"e", only 'S' for
      "salida"/"s", every kind for anything else. */
  predicate KindAdmits(kindParam: string, kind: char)
  {
    match kindParam
    case "entrada" => kind == ENTRY
    case "e" => kind == ENTRY
    case "salida" => kind == EXIT
    case "s" => kind == EXIT
    case _ => true
  }

  /** The date window [f_ini, f_fin + 1 day): each bound applies when it parsed, except that
      a malformed f_ini switches both bounds off. */
  predicate InWindow(t: int, from: DateArg, to: DateArg)
  {
    from.Malformed? || ((from.Midnight? ==> from.at <= t) && (to.Midnight? ==> t < to.at + DAY))
  }

  predicate AllHold(cs: seq<Condition>, m: Movement)
  {
    forall i :: 0 <= i < |cs| ==> Holds(cs[i], m)
  }

  lemma AllHoldConcat(a: seq<Condition>, b: seq<Condition>, m: Movement)
    ensures AllHold(a + b, m) <==> AllHold(a, m) && AllHold(b, m)
  {
    if AllHold(a, m) && AllHold(b, m) {
      forall i | 0 <= i < |a + b| ensures Holds((a + b)[i], m) {
        if i >= |a| { assert (a + b)[i] == b[i - |a|]; }
      }
    }
    if AllHold(a + b, m) {
      forall i | 0 <= i < |a| ensures Holds(a[i], m) {
        assert (a + b)[i] == a[i];
      }
      forall i | 0 <= i < |b| ensures Holds(b[i], m) {
        assert (a + b)[|a| + i] == b[i];
      }
    }
  }

  lemma KindConditionsMeaning(kindParam: string, m: Movement)
    ensures AllHold(KindConditions(kindParam), m) <==> KindAdmits(kindParam, m.kind)
  {
    var cs := KindConditions(kindParam);
    if cs != [] { assert cs[0] in cs; }
  }

  lemma DateConditionsMeaning(from: DateArg, to: DateArg, m: Movement)
    ensures AllHold(DateConditions(from, to), m) <==> InWindow(m.timestamp, from, to)
  {
    var upper := UpperConditions(to);
    assert AllHold(upper, m) <==> (to.Midnight? ==> m.timestamp < to.at + DAY) by {
      if upper != [] { assert upper[0] in upper; }
    }
    if from.Midnight? {
      var lower := [AtOrAfter(from.at)];
      AllHoldConcat(lower, upper, m);
      assert AllHold(lower, m) <==> from.at <= m.timestamp by {
        assert lower[0] in lower;
      }
    }
  }

  /** Whether the movement survives every condition of the query: exactly the movements of an
      admitted kind inside the date window. */
  function Selected(m: Movement, kindParam: string, from: DateArg, to: DateArg): (keep: bool)
    ensures keep <==> KindAdmits(kindParam, m.kind) && InWindow(m.timestamp, from, to)
  {
    AllHoldConcat(KindConditions(kindParam), DateConditions(from, to), m);
    KindConditionsMeaning(kindParam, m);
    DateConditionsMeaning(from, to, m);
    AllHold(Conditions(kindParam, from, to), m)
  }

  /** historico's result: the selected movements, ordered by descending idMovimiento. */
  function NewestFirst(movements: seq<Movement>, kindParam: string, from: DateArg, to: DateArg): (rows: seq<Movement>)
    ensures forall m :: m in rows <==> m in movements && Selected(m, kindParam, from, to)
    ensures |rows| <= |movements|
    ensures IdsIncreasing(movements) ==> IdsDecreasing(rows)
    decreases |movements|
  {
    if movements == [] then []
    else
      var older := movements[..|movements| - 1];
      var last := movements[|movements| - 1];
      var rest := NewestFirst(older, kindParam, from, to);
      assert movements == older + [last];
      if Selected(last, kindParam, from, to) then
        assert IdsIncreasing(movements) ==> forall m :: m in rest ==> m.id < last.id by {
          if IdsIncreasing(movements) {
            forall m | m in rest ensures m.id < last.id {
              var j :| 0 <= j < |older| && older[j] == m;
            }
          }
        }
        [last] + rest
      else rest
  }
}
