/** The decrypting pass of cmd/backup/main.go: the organization export, as decoded by
    `json.Unmarshal` into `interface{}`, is walked by `traverseAndModify`, which hands every leaf to
    the `mod` closure; `mod` replaces each string that decrypts under the organization key by its
    plaintext. */
module Backup {
  import opened Base
  import opened Crypto
  import opened PkcsCbc
  import opened Pkcs

  /** A value `json.Unmarshal` produces into `interface{}`: objects become `map[string]interface{}`,
      arrays `[]interface{}`, and the rest leaves. Go decodes a number into a `float64`; `JNumber`
      stands for that value by its text and does not model the rounding of integers beyond 2^53. */
  datatype Json =
    | JNull
    | JBool(b: bool)
    | JNumber(literal: GoString)
    | JString(s: GoString)
    | JArray(items: seq<Json>)
    | JObject(fields: map<GoString, Json>)

  /** What the type switch of `traverseAndModify` sends to its `default` branch. */
  predicate IsLeaf(j: Json) {
    !j.JArray? && !j.JObject?
  }

  /** `traverseAndModify`: objects keep their keys and arrays their length and order; every member
      or element is replaced by its own traversal, and only leaves are handed to `edit`. */
  function Traverse(data: Json, edit: Json -> Json): (r: Json)
    decreases data
  {
    match data
    case JObject(fields) => JObject(map key | key in fields :: Traverse(fields[key], edit))
    case JArray(items) => JArray(seq(|items|, i requires 0 <= i < |items| => Traverse(items[i], edit)))
    case _ => edit(data)
  }

  /** `f` and `g` agree on every leaf of the tree. */
  ghost predicate AgreeOnLeaves(data: Json, f: Json -> Json, g: Json -> Json)
    decreases data
  {
    match data
    case JObject(fields) => forall key :: key in fields ==> AgreeOnLeaves(fields[key], f, g)
    case JArray(items) => forall i :: 0 <= i < |items| ==> AgreeOnLeaves(items[i], f, g)
    case _ => f(data) == g(data)
  }

  /** Two trees with the same containers: the same keys in every object, the same length in every
      array; only leaves may differ. */
  ghost predicate SameShape(a: Json, b: Json)
    decreases a
  {
    match a
    case JObject(fa) => b.JObject? && fa.Keys == b.fields.Keys && forall key :: key in fa ==> SameShape(fa[key], b.fields[key])
    case JArray(ia) => b.JArray? && |ia| == |b.items| && forall i :: 0 <= i < |ia| ==> SameShape(ia[i], b.items[i])
    case _ => IsLeaf(b)
  }

  /** The traversal keeps the containers of its input when `edit` turns leaves into leaves. */
  lemma {:induction false} TraverseKeepsShape(data: Json, edit: Json -> Json)
    requires forall x :: IsLeaf(x) ==> IsLeaf(edit(x))
    ensures SameShape(data, Traverse(data, edit))
    decreases data
  {
    match data
    case JObject(fields) =>
      forall key | key in fields ensures SameShape(fields[key], Traverse(data, edit).fields[key]) {
        TraverseKeepsShape(fields[key], edit);
      }
    case JArray(items) =>
      forall i | 0 <= i < |items| ensures SameShape(items[i], Traverse(data, edit).items[i]) {
        TraverseKeepsShape(items[i], edit);
      }
    case _ =>
  }

  /** `edit` is consulted on leaves only: two functions that agree on the leaves of a tree give
      the same traversal, whatever they do to containers. */
  lemma {:induction false} TraverseReadsLeavesOnly(data: Json, f: Json -> Json, g: Json -> Json)
    requires AgreeOnLeaves(data, f, g)
    ensures Traverse(data, f) == Traverse(data, g)
    decreases data
  {
    match data
    case JObject(fields) =>
      forall key | key in fields ensures Traverse(fields[key], f) == Traverse(fields[key], g) {
        TraverseReadsLeavesOnly(fields[key], f, g);
      }
    case JArray(items) =>
      forall i | 0 <= i < |items| ensures Traverse(items[i], f) == Traverse(items[i], g) {
        TraverseReadsLeavesOnly(items[i], f, g);
      }
    case _ =>
  }

  /** A `edit` that leaves every leaf alone leaves the whole tree alone. */
  lemma {:induction false} TraverseIdentity(data: Json, edit: Json -> Json)
    requires forall x :: IsLeaf(x) ==> edit(x) == x
    ensures Traverse(data, edit) == data
    decreases data
  {
    match data
    case JObject(fields) =>
      forall key | key in fields ensures Traverse(fields[key], edit) == fields[key] {
        TraverseIdentity(fields[key], edit);
      }
    case JArray(items) =>
      forall i | 0 <= i < |items| ensures Traverse(items[i], edit) == items[i] {
        TraverseIdentity(items[i], edit);
      }
    case _ =>
  }

  /** Two passes are one: when `f` turns leaves into leaves, traversing with `f` and then with `g`
      is traversing once with `h`, `g` after `f`. */
  lemma {:induction false} TraverseCompose(data: Json, f: Json -> Json, g: Json -> Json, h: Json -> Json)
    requires forall x :: IsLeaf(x) ==> IsLeaf(f(x)) && h(x) == g(f(x))
    ensures Traverse(Traverse(data, f), g) == Traverse(data, h)
    decreases data
  {
    match data
    case JObject(fields) =>
      forall key | key in fields ensures Traverse(Traverse(fields[key], f), g) == Traverse(fields[key], h) {
        TraverseCompose(fields[key], f, g, h);
      }
    case JArray(items) =>
      forall i | 0 <= i < |items| ensures Traverse(Traverse(items[i], f), g) == Traverse(items[i], h) {
        TraverseCompose(items[i], f, g, h);
      }
    case _ =>
  }

  /** The `mod` closure over the organization key: a string with the envelope shape that decrypts
      becomes its plaintext; a non-string, a string of another shape and an envelope refused with an
      error are returned as they came. A panic inside `BWSymDecrypt` (an IV that is not one block
      long, an empty ciphertext) is not recovered by `mod` and comes out as `Err(Panic(..))`. */
  function Mod(c: Primitives, orgSymKey: Bytes, value: Json): (r: Result<Json>)
    ensures !value.JString? || !IsBWSymFormat(value.s) ==> r == Ok(value)
    ensures value.JString? && BWSymDecrypt(c, orgSymKey, value.s).Ok? ==>
              r == Ok(JString(BWSymDecrypt(c, orgSymKey, value.s).value))
    ensures value.JString? && BWSymDecrypt(c, orgSymKey, value.s).Err? ==>
              var e := BWSymDecrypt(c, orgSymKey, value.s).error;
              r == if e.Panic? then Err(e) else Ok(value)
    ensures r.Ok? && IsLeaf(value) ==> IsLeaf(r.value)
  {
    if !value.JString? || !IsBWSymFormat(value.s) then Ok(value)
    else
      match BWSymDecrypt(c, orgSymKey, value.s)
      case Err(e) => if e.Panic? then Err(e) else Ok(value)
      case Ok(bs) => Ok(JString(bs))
  }

  /** The leaf `mod` returns when it returns at all. */
  function ModWith(c: Primitives, orgSymKey: Bytes): (edit: Json -> Json)
    ensures forall x :: Mod(c, orgSymKey, x).Ok? ==> edit(x) == Mod(c, orgSymKey, x).value
    ensures forall x :: IsLeaf(x) ==> IsLeaf(edit(x))
  {
    x => if Mod(c, orgSymKey, x).Ok? then Mod(c, orgSymKey, x).value else x
  }

  /** Some leaf of the tree satisfies `p`. */
  predicate AnyLeaf(data: Json, p: Json -> bool)
    decreases data
  {
    match data
    case JObject(fields) => exists key :: key in fields && AnyLeaf(fields[key], p)
    case JArray(items) => exists i :: 0 <= i < |items| && AnyLeaf(items[i], p)
    case _ => p(data)
  }

  /** A traversal whose edit never produces a leaf satisfying `p` leaves no such leaf. */
  lemma {:induction false} TraverseAvoids(data: Json, edit: Json -> Json, p: Json -> bool)
    requires forall x :: IsLeaf(x) ==> IsLeaf(edit(x)) && !p(edit(x))
    ensures !AnyLeaf(Traverse(data, edit), p)
    decreases data
  {
    match data
    case JObject(fields) =>
      forall key | key in fields ensures !AnyLeaf(Traverse(fields[key], edit), p) {
        TraverseAvoids(fields[key], edit, p);
      }
    case JArray(items) =>
      forall i | 0 <= i < |items| ensures !AnyLeaf(Traverse(items[i], edit), p) {
        TraverseAvoids(items[i], edit, p);
      }
    case _ =>
  }

  /** The backup of an export: every leaf passed through `mod`, and the file written; `None` when
      `mod` panics on some leaf, which ends the program before anything is written. */
  function DecryptExport(c: Primitives, orgSymKey: Bytes, results: Json): (r: Option<Json>)
    ensures r.None? <==> AnyLeaf(results, x => Mod(c, orgSymKey, x).Err?)
    ensures r.Some? ==> SameShape(results, r.value)
  {
    var edit := ModWith(c, orgSymKey);
    TraverseKeepsShape(results, edit);
    if AnyLeaf(results, x => Mod(c, orgSymKey, x).Err?) then None else Some(Traverse(results, edit))
  }

  /** `mod` undoes the encryption of a string under the organization key. */
  lemma ModDecrypts(c: Primitives, orgSymKey: Bytes, iv: Bytes, plain: GoString)
    requires Axioms(c) && |orgSymKey| >= 32 && |iv| == IV_LEN
    ensures Mod(c, orgSymKey, JString(BWSymEncrypt(c, orgSymKey, iv, plain))) == Ok(JString(plain))
  {
    SymEnvelopeShape(c, orgSymKey, iv, plain);
    SymRoundTrip(c, orgSymKey, iv, plain);
  }

  /** Encrypting every string leaf of a tree under the organization key, each with its own IV. */
  function EncryptWith(c: Primitives, orgSymKey: Bytes, ivOf: GoString -> Bytes): (edit: Json -> Json)
    requires |orgSymKey| >= 32 && forall s :: |ivOf(s)| == IV_LEN
    ensures forall x :: IsLeaf(x) ==> IsLeaf(edit(x))
    ensures forall x: Json :: x.JString? ==> edit(x) == JString(BWSymEncrypt(c, orgSymKey, ivOf(x.s), x.s))
    ensures forall x: Json :: !x.JString? ==> edit(x) == x
  {
    (x: Json) => if x.JString? then JString(BWSymEncrypt(c, orgSymKey, ivOf(x.s), x.s)) else x
  }

  /** End to end: the backup of an export whose strings were all encrypted under the organization
      key is the plaintext export, container for container and leaf for leaf. */
  lemma DecryptExportRoundTrip(c: Primitives, orgSymKey: Bytes, ivOf: GoString -> Bytes, plain: Json)
    requires Axioms(c) && |orgSymKey| >= 32 && forall s :: |ivOf(s)| == IV_LEN
    ensures DecryptExport(c, orgSymKey, Traverse(plain, EncryptWith(c, orgSymKey, ivOf))) == Some(plain)
  {
    var enc := EncryptWith(c, orgSymKey, ivOf);
    var dec := ModWith(c, orgSymKey);
    var panics := x => Mod(c, orgSymKey, x).Err?;
    var same: Json -> Json := x => x;
    forall x | IsLeaf(x) ensures IsLeaf(enc(x)) && !panics(enc(x)) && same(x) == dec(enc(x)) {
      if x.JString? {
        ModDecrypts(c, orgSymKey, ivOf(x.s), x.s);
      }
    }
    TraverseAvoids(plain, enc, panics);
    TraverseCompose(plain, enc, dec, same);
    TraverseIdentity(plain, same);
  }

  /** A property that holds of some leaf holds of some leaf under any weaker property. */
  lemma {:induction false} AnyLeafWeaken(data: Json, p: Json -> bool, q: Json -> bool)
    requires AnyLeaf(data, p)
    requires forall x :: p(x) ==> q(x)
    ensures AnyLeaf(data, q)
    decreases data
  {
    match data
    case JObject(fields) =>
      var key :| key in fields && AnyLeaf(fields[key], p);
      AnyLeafWeaken(fields[key], p, q);
    case JArray(items) =>
      var i :| 0 <= i < |items| && AnyLeaf(items[i], p);
      AnyLeafWeaken(items[i], p, q);
    case _ =>
  }

  /** The backup dies on an envelope whose MAC checks out but whose IV is not one block long, or
      whose ciphertext is empty: `BWSymDecrypt` panics past the MAC check, `mod` does not recover,
      and no file is written, wherever in the export the envelope sits. */
  lemma CrashPastMac(c: Primitives, orgSymKey: Bytes, s: GoString, data: Json)
    requires |orgSymKey| >= 32 && MacValid(c, orgSymKey, s)
    requires var f := ParseSym(s).value;
             var d := DecodeAll(c, [f.iv, f.ciphertext, f.mac]).value;
             |d[1]| % BLOCK_SIZE == 0 && (|d[0]| != IV_LEN || |d[1]| == 0)
    requires AnyLeaf(data, x => x == JString(s))
    ensures Mod(c, orgSymKey, JString(s)).Err? && Mod(c, orgSymKey, JString(s)).error.Panic?
    ensures DecryptExport(c, orgSymKey, data) == None
  {
    assert Mod(c, orgSymKey, JString(s)).Err?;
    AnyLeafWeaken(data, x => x == JString(s), x => Mod(c, orgSymKey, x).Err?);
  }
}
