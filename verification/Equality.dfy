// `==` on parsed JSON: numbers by value, and the booleans are the numbers one and zero.
module Equality {
  import opened Wrappers
  import opened Json

  // The value of a numeral.  Numerals that are equal in Python, like 1 and 1.0, share it, and
  // others do not.
  type Valuation = Number -> real

  // The integer a boolean is.
  function Numeral(b: bool): Number {
    assert "1"[1..] == "" && "0"[1..] == "";
    if b then "1" else "0"
  }

  // The value of a number or boolean.
  function ValueOf(j: Json, value: Valuation): Option<real> {
    match j
    case Num(n) => Some(value(n))
    case Bool(b) => Some(value(Numeral(b)))
    case _ => None
  }

  predicate AreEqual(a: Json, b: Json, value: Valuation) {
    match (a, b)
    case (Arr(xs), Arr(ys)) => |xs| == |ys| && forall i :: 0 <= i < |xs| ==> AreEqual(xs[i], ys[i], value)
    case (Obj(m), Obj(n)) => m.Keys == n.Keys && forall k <- m :: AreEqual(m[k], n[k], value)
    case _ => a == b || (ValueOf(a, value).Some? && ValueOf(a, value) == ValueOf(b, value))
  }

  lemma {:induction false} EqualToItself(a: Json, value: Valuation)
    ensures AreEqual(a, a, value)
    decreases a
  {
    match a
    case Arr(xs) =>
      forall i | 0 <= i < |xs| ensures AreEqual(xs[i], xs[i], value) {
        EqualToItself(xs[i], value);
      }
    case Obj(m) =>
      forall k | k in m ensures AreEqual(m[k], m[k], value) {
        EqualToItself(m[k], value);
      }
    case _ =>
  }

  lemma {:induction false} EqualBothWays(a: Json, b: Json, value: Valuation)
    requires AreEqual(a, b, value)
    ensures AreEqual(b, a, value)
    decreases a
  {
    match (a, b)
    case (Arr(xs), Arr(ys)) =>
      forall i | 0 <= i < |xs| ensures AreEqual(ys[i], xs[i], value) {
        EqualBothWays(xs[i], ys[i], value);
      }
    case (Obj(m), Obj(n)) =>
      forall k | k in n ensures AreEqual(n[k], m[k], value) {
        EqualBothWays(m[k], n[k], value);
      }
    case _ =>
  }

  lemma {:induction false} EqualInTurn(a: Json, b: Json, c: Json, value: Valuation)
    requires AreEqual(a, b, value) && AreEqual(b, c, value)
    ensures AreEqual(a, c, value)
    decreases a
  {
    match (a, b, c)
    case (Arr(xs), Arr(ys), Arr(zs)) =>
      forall i | 0 <= i < |xs| ensures AreEqual(xs[i], zs[i], value) {
        EqualInTurn(xs[i], ys[i], zs[i], value);
      }
    case (Obj(m), Obj(n), Obj(o)) =>
      forall k | k in m ensures AreEqual(m[k], o[k], value) {
        EqualInTurn(m[k], n[k], o[k], value);
      }
    case _ =>
  }

  lemma TrueEqualsOne(value: Valuation)
    ensures AreEqual(Obj(map["n" := Num(Numeral(true))]), Obj(map["n" := Bool(true)]), value)
  {
    var (m, n) := (map["n" := Num(Numeral(true))], map["n" := Bool(true)]);
    assert AreEqual(m["n"], n["n"], value);
    assert m.Keys == n.Keys && forall k <- m :: AreEqual(m[k], n[k], value);
  }

  // A numeral that no other numeral and neither boolean is equal to.
  ghost predicate IsLone(n: Number, value: Valuation) {
    value(n) != value(Numeral(false)) && value(n) != value(Numeral(true)) &&
      forall m: Number :: value(m) == value(n) ==> m == n
  }

  // No boolean, and no number with a second equal form, at any depth.
  ghost predicate IsRigid(j: Json, value: Valuation) {
    match j
    case Bool(_) => false
    case Num(n) => IsLone(n, value)
    case Arr(items) => forall i :: 0 <= i < |items| ==> IsRigid(items[i], value)
    case Obj(members) => forall k <- members :: IsRigid(members[k], value)
    case _ => true
  }

  lemma {:induction false} RigidEqualsItselfOnly(a: Json, b: Json, value: Valuation)
    requires IsRigid(a, value) && AreEqual(a, b, value)
    ensures a == b
    decreases a
  {
    match (a, b)
    case (Arr(xs), Arr(ys)) =>
      forall i | 0 <= i < |xs| ensures xs[i] == ys[i] {
        RigidEqualsItselfOnly(xs[i], ys[i], value);
      }
    case (Obj(m), Obj(n)) =>
      forall k | k in m ensures m[k] == n[k] {
        RigidEqualsItselfOnly(m[k], n[k], value);
      }
      assert m == n;
    case _ =>
  }

  // Another value that is equal to this one.
  lemma {:induction false} Twin(a: Json, value: Valuation) returns (b: Json)
    requires !IsRigid(a, value)
    ensures AreEqual(a, b, value) && a != b
    ensures a.Obj? ==> b.Obj?
    decreases a
  {
    match a
    case Bool(x) => b := Num(Numeral(x));
    case Num(n) =>
      if value(n) == value(Numeral(false)) {
        b := Bool(false);
      } else if value(n) == value(Numeral(true)) {
        b := Bool(true);
      } else {
        var m: Number :| value(m) == value(n) && m != n;
        b := Num(m);
      }
    case Arr(items) =>
      var i :| 0 <= i < |items| && !IsRigid(items[i], value);
      var other := Twin(items[i], value);
      b := Arr(items[i := other]);
      assert b.items[i] != items[i];
      forall k | 0 <= k < |items| ensures AreEqual(items[k], b.items[k], value) {
        EqualToItself(items[k], value);
      }
    case Obj(members) =>
      var key :| key in members && !IsRigid(members[key], value);
      var other := Twin(members[key], value);
      b := Obj(members[key := other]);
      assert b.members[key] != members[key];
      forall k | k in members ensures AreEqual(members[k], b.members[k], value) {
        EqualToItself(members[k], value);
      }
    case _ =>
  }

  // Nothing else is equal to a value exactly when it holds neither a boolean nor a number with a
  // second equal form.
  lemma OnlyRigidIsAlone(a: Json, value: Valuation)
    ensures IsRigid(a, value) <==> forall b :: AreEqual(a, b, value) ==> a == b
  {
    if IsRigid(a, value) {
      forall b | AreEqual(a, b, value) ensures a == b {
        RigidEqualsItselfOnly(a, b, value);
      }
    } else {
      var b := Twin(a, value);
      assert AreEqual(a, b, value) && a != b;
    }
  }
}
