/** Tracking the secrets a task resolved, and removing them from what it registers. */
module Redaction {
  import opened Prelude

  /** A value: nil, a string, another scalar, or a map or slice, which can also be nil while having a type. */
  datatype Value =
    | Nil
    | Text(text: string)
    | Scalar(printed: string)
    | NilMap
    | Map(entries: map<string, Value>)
    | NilSlice
    | Slice(elems: seq<Value>)

  const REDACTED_SECRET_VALUE := "[REDACTED_SECRET]"

  predicate OccursAt(s: string, t: string, i: nat) {
    i + |t| <= |s| && s[i..i + |t|] == t
  }

  /** t occurs in s. */
  predicate Contains(s: string, t: string) {
    exists i | 0 <= i <= |s| :: OccursAt(s, t, i)
  }

  ghost predicate Leaks(s: string, secrets: set<string>) {
    exists t :: t in secrets && Contains(s, t)
  }

  // ---- The tracker ----

  class SecretTracker {
    var resolvedSecrets: set<string>

    constructor ()
      ensures resolvedSecrets == {} && Valid()
    {
      resolvedSecrets := {};
    }

    /** The empty string, which occurs in every string, is never tracked. */
    ghost predicate Valid()
      reads this
    {
      "" !in resolvedSecrets
    }

    method Add(secret: string)
      requires Valid()
      modifies this
      ensures Valid() && resolvedSecrets == old(resolvedSecrets) + (if secret == "" then {} else {secret})
    {
      if secret == "" {
        return;
      }
      resolvedSecrets := resolvedSecrets + {secret};
    }

    method IsTracked(value: string) returns (found: bool)
      requires Valid()
      ensures found <==> value in resolvedSecrets
    {
      if value == "" {
        return false;
      }
      found := value in resolvedSecrets;
    }

    /** Some tracked secret occurs in the input, whatever order they are looked at. */
    method ContainsTrackedSecret(input: string) returns (found: bool)
      requires Valid()
      ensures found <==> Leaks(input, resolvedSecrets)
    {
      if input == "" {
        EmptyIsClean(resolvedSecrets);
        return false;
      }
      var todo := resolvedSecrets;
      while todo != {}
        invariant todo <= resolvedSecrets && forall t :: t in resolvedSecrets && t !in todo ==> !Contains(input, t)
        decreases todo
      {
        var secret :| secret in todo;
        if Contains(input, secret) {
          return true;
        }
        todo := todo - {secret};
      }
      return false;
    }
  }

  lemma EmptyIsClean(secrets: set<string>)
    requires "" !in secrets
    ensures !Leaks("", secrets)
  {
  }

  // ---- Redaction ----

  /** Every leaking string replaced, the rest kept; nil maps and slices lose their type. */
  ghost function Redacted(v: Value, secrets: set<string>): Value {
    match v
    case Text(s) => if Leaks(s, secrets) then Text(REDACTED_SECRET_VALUE) else v
    case NilMap => Nil
    case Map(entries) => Map(map k | k in entries :: Redacted(entries[k], secrets))
    case NilSlice => Nil
    case Slice(elems) => Slice(seq(|elems|, i requires 0 <= i < |elems| => Redacted(elems[i], secrets)))
    case _ => v
  }

  /** Some string in v leaks. */
  ghost predicate Dirty(v: Value, secrets: set<string>) {
    match v
    case Text(s) => Leaks(s, secrets)
    case Map(entries) => exists k :: k in entries && Dirty(entries[k], secrets)
    case Slice(elems) => exists i :: 0 <= i < |elems| && Dirty(elems[i], secrets)
    case _ => false
  }

  ghost predicate HasTypedNil(v: Value) {
    match v
    case NilMap => true
    case NilSlice => true
    case Map(entries) => exists k :: k in entries && HasTypedNil(entries[k])
    case Slice(elems) => exists i :: 0 <= i < |elems| && HasTypedNil(elems[i])
    case _ => false
  }

  method RedactRecursive(data: Value, tracker: SecretTracker) returns (r: Value, redacted: bool)
    requires tracker.Valid()
    ensures r == Redacted(data, tracker.resolvedSecrets)
    ensures redacted <==> Dirty(data, tracker.resolvedSecrets)
    decreases data, 1
  {
    match data {
      case Nil => return Nil, false;
      case Text(s) =>
        var found := tracker.ContainsTrackedSecret(s);
        if found {
          return Text(REDACTED_SECRET_VALUE), true;
        }
        return data, false;
      case NilMap => return Nil, false;
      case Map(entries) => r, redacted := RedactMap(data, tracker);
      case NilSlice => return Nil, false;
      case Slice(elems) => r, redacted := RedactSlice(data, tracker);
      case Scalar(_) => return data, false;
    }
  }

  method RedactMap(data: Value, tracker: SecretTracker) returns (r: Value, redacted: bool)
    requires tracker.Valid() && data.Map?
    ensures r == Redacted(data, tracker.resolvedSecrets)
    ensures redacted <==> Dirty(data, tracker.resolvedSecrets)
    decreases data, 0
  {
    var newMap: map<string, Value> := map[];
    redacted := false;
    var todo := data.entries.Keys;
    while todo != {}
      invariant todo <= data.entries.Keys && newMap.Keys == data.entries.Keys - todo
      invariant forall k :: k in newMap ==> newMap[k] == Redacted(data.entries[k], tracker.resolvedSecrets)
      invariant redacted <==>
        exists k :: k in data.entries && k !in todo && Dirty(data.entries[k], tracker.resolvedSecrets)
      decreases todo
    {
      var key :| key in todo;
      var newVal, wasRedacted := RedactRecursive(data.entries[key], tracker);
      newMap := newMap[key := newVal];
      if wasRedacted { redacted := true; }
      todo := todo - {key};
    }
    assert newMap == map k | k in data.entries :: Redacted(data.entries[k], tracker.resolvedSecrets);
    r := Map(newMap);
  }

  method RedactSlice(data: Value, tracker: SecretTracker) returns (r: Value, redacted: bool)
    requires tracker.Valid() && data.Slice?
    ensures r == Redacted(data, tracker.resolvedSecrets)
    ensures redacted <==> Dirty(data, tracker.resolvedSecrets)
    decreases data, 0
  {
    var newSlice: seq<Value> := [];
    redacted := false;
    for i := 0 to |data.elems|
      invariant |newSlice| == i
      invariant forall j :: 0 <= j < i ==> newSlice[j] == Redacted(data.elems[j], tracker.resolvedSecrets)
      invariant redacted <==> exists j :: 0 <= j < i && Dirty(data.elems[j], tracker.resolvedSecrets)
    {
      var newVal, wasRedacted := RedactRecursive(data.elems[i], tracker);
      newSlice := newSlice + [newVal];
      if wasRedacted { redacted := true; }
    }
    r := Slice(newSlice);
  }

  method RedactTrackedSecrets(data: Value, tracker: SecretTracker?) returns (r: Value, redacted: bool)
    requires tracker != null ==> tracker.Valid()
    ensures tracker == null ==> r == data && !redacted
    ensures tracker != null ==>
      r == Redacted(data, tracker.resolvedSecrets) && (redacted <==> Dirty(data, tracker.resolvedSecrets))
  {
    if data == Nil || tracker == null {
      return data, false;
    }
    r, redacted := RedactRecursive(data, tracker);
  }

  // ---- What redaction means ----

  datatype Access = Key(name: string) | Index(i: nat)

  function At(v: Value, path: seq<Access>): Option<Value>
    decreases |path|
  {
    if path == [] then Some(v)
    else match (v, path[0])
         case (Map(entries), Key(k)) => if k in entries then At(entries[k], path[1..]) else None
         case (Slice(elems), Index(i)) => if i < |elems| then At(elems[i], path[1..]) else None
         case _ => None
  }

  /** The part of a redacted value at any path is the redacted part: the same paths exist, nothing moves. */
  lemma {:induction false} ShapeIsKept(v: Value, secrets: set<string>, path: seq<Access>)
    ensures At(Redacted(v, secrets), path) ==
      match At(v, path)
      case None => None
      case Some(w) => Some(Redacted(w, secrets))
    decreases |path|
  {
    if path != [] {
      match (v, path[0])
      case (Map(entries), Key(k)) => if k in entries { ShapeIsKept(entries[k], secrets, path[1..]); }
      case (Slice(elems), Index(i)) => if i < |elems| { ShapeIsKept(elems[i], secrets, path[1..]); }
      case _ =>
    }
  }

  ghost predicate LeakingStringAt(v: Value, path: seq<Access>, secrets: set<string>) {
    At(v, path).Some? && At(v, path).value.Text? && Leaks(At(v, path).value.text, secrets)
  }

  /** The flag tells whether some path leads to a string with a secret in it. */
  lemma {:induction false} DirtyMeans(v: Value, secrets: set<string>)
    ensures Dirty(v, secrets) <==> exists path :: LeakingStringAt(v, path, secrets)
  {
    match v
    case Text(s) =>
      if Leaks(s, secrets) { assert LeakingStringAt(v, [], secrets); }
    case Map(entries) =>
      forall k | k in entries
        ensures Dirty(entries[k], secrets) <==> exists path :: LeakingStringAt(entries[k], path, secrets)
      {
        DirtyMeans(entries[k], secrets);
      }
      if k :| k in entries && Dirty(entries[k], secrets) {
        var path :| LeakingStringAt(entries[k], path, secrets);
        assert ([Key(k)] + path)[1..] == path;
        assert LeakingStringAt(v, [Key(k)] + path, secrets);
      }
      if path: seq<Access> :| LeakingStringAt(v, path, secrets) {
        assert LeakingStringAt(entries[path[0].name], path[1..], secrets);
      }
    case Slice(elems) =>
      forall i | 0 <= i < |elems|
        ensures Dirty(elems[i], secrets) <==> exists path :: LeakingStringAt(elems[i], path, secrets)
      {
        DirtyMeans(elems[i], secrets);
      }
      if i :| 0 <= i < |elems| && Dirty(elems[i], secrets) {
        var path :| LeakingStringAt(elems[i], path, secrets);
        assert ([Index(i)] + path)[1..] == path;
        assert LeakingStringAt(v, [Index(i)] + path, secrets);
      }
      if path: seq<Access> :| LeakingStringAt(v, path, secrets) {
        assert LeakingStringAt(elems[path[0].i], path[1..], secrets);
      }
    case _ =>
  }

  /** Without a leaking string a value is left alone exactly if it holds no nil map or slice, which become plain nil. */
  lemma {:induction false} CleanIsUnchanged(v: Value, secrets: set<string>)
    requires !Dirty(v, secrets)
    ensures Redacted(v, secrets) == v <==> !HasTypedNil(v)
  {
    match v
    case Map(entries) =>
      forall k | k in entries ensures Redacted(entries[k], secrets) == entries[k] <==> !HasTypedNil(entries[k]) {
        CleanIsUnchanged(entries[k], secrets);
      }
      var r := map k | k in entries :: Redacted(entries[k], secrets);
      if !HasTypedNil(v) { assert r == entries; }
      if r == entries { assert forall k :: k in entries ==> r[k] == entries[k]; }
    case Slice(elems) =>
      forall i | 0 <= i < |elems| ensures Redacted(elems[i], secrets) == elems[i] <==> !HasTypedNil(elems[i]) {
        CleanIsUnchanged(elems[i], secrets);
      }
      var r := seq(|elems|, i requires 0 <= i < |elems| => Redacted(elems[i], secrets));
      if !HasTypedNil(v) { assert r == elems; }
      if r == elems { assert forall i :: 0 <= i < |elems| ==> r[i] == elems[i]; }
    case _ =>
  }

  /** The result leaks only if the value did and the placeholder itself holds a secret. */
  lemma {:induction false} ResultIsClean(v: Value, secrets: set<string>)
    ensures Dirty(Redacted(v, secrets), secrets) <==> Dirty(v, secrets) && Leaks(REDACTED_SECRET_VALUE, secrets)
  {
    match v
    case Map(entries) =>
      forall k | k in entries
        ensures Dirty(Redacted(entries[k], secrets), secrets) <==>
          Dirty(entries[k], secrets) && Leaks(REDACTED_SECRET_VALUE, secrets)
      {
        ResultIsClean(entries[k], secrets);
      }
      var r := Redacted(v, secrets).entries;
      assert forall k :: k in entries ==> r[k] == Redacted(entries[k], secrets);
    case Slice(elems) =>
      forall i | 0 <= i < |elems|
        ensures Dirty(Redacted(elems[i], secrets), secrets) <==>
          Dirty(elems[i], secrets) && Leaks(REDACTED_SECRET_VALUE, secrets)
      {
        ResultIsClean(elems[i], secrets);
      }
      var r := Redacted(v, secrets).elems;
      assert forall i :: 0 <= i < |elems| ==> r[i] == Redacted(elems[i], secrets);
    case _ =>
  }

  /** A string, at any place, gives way to the placeholder if some secret is part of it, and else stays as it is. */
  lemma StringsAt(v: Value, secrets: set<string>, path: seq<Access>, s: string)
    requires At(v, path) == Some(Text(s))
    ensures At(Redacted(v, secrets), path) ==
      if exists t, before, after :: t in secrets && IsAround(s, before, t, after) then Some(Text("[REDACTED_SECRET]"))
      else Some(Text(s))
  {
    ShapeIsKept(v, secrets, path);
    LeaksMeans(s, secrets);
  }

  predicate IsAround(s: string, before: string, t: string, after: string) {
    s == before + t + after
  }

  lemma LeaksMeans(s: string, secrets: set<string>)
    ensures Leaks(s, secrets) <==> exists t, before, after :: t in secrets && IsAround(s, before, t, after)
  {
    if t, i: nat :| t in secrets && OccursAt(s, t, i) {
      assert s == s[..i] + t + s[i + |t|..];
      assert IsAround(s, s[..i], t, s[i + |t|..]);
    }
    if t, before, after :| t in secrets && IsAround(s, before, t, after) {
      assert s[|before|..|before| + |t|] == t;
      assert OccursAt(s, t, |before|);
    }
  }

  /** Redacting again changes nothing. */
  lemma {:induction false} RedactingTwice(v: Value, secrets: set<string>)
    ensures Redacted(Redacted(v, secrets), secrets) == Redacted(v, secrets)
  {
    match v
    case Map(entries) =>
      forall k | k in entries
        ensures Redacted(Redacted(entries[k], secrets), secrets) == Redacted(entries[k], secrets)
      {
        RedactingTwice(entries[k], secrets);
      }
      assert Redacted(Redacted(v, secrets), secrets).entries == Redacted(v, secrets).entries;
    case Slice(elems) =>
      forall i | 0 <= i < |elems|
        ensures Redacted(Redacted(elems[i], secrets), secrets) == Redacted(elems[i], secrets)
      {
        RedactingTwice(elems[i], secrets);
      }
      assert Redacted(Redacted(v, secrets), secrets).elems == Redacted(v, secrets).elems;
    case _ =>
  }
}
