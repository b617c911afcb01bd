/** What is forwarded to the sink (sink.go): an event with the overrides on top, as
    extension attributes. */
module SinkClient {
  import Prelude
  import opened Text

  const CORE: set<string> :=
    {"id", "source", "type", "datacontenttype", "subject", "time", "specversion", "dataschema"}

  predicate Alphanumeric(c: char) {
    'a' <= c <= 'z' || 'A' <= c <= 'Z' || '0' <= c <= '9'
  }

  predicate ValidName(name: string) {
    name != "" && forall i | 0 <= i < |name| :: Alphanumeric(name[i])
  }

  predicate AttributeName(name: string) {
    ValidName(name) && forall i | 0 <= i < |name| :: Lower(name[i]) == name[i]
  }

  /** The names the SDK keeps extensions under: valid, lower-case, and none of the core
      attributes. */
  predicate Proper(name: string) {
    AttributeName(name) && name !in CORE
  }

  type ExtensionName = name: string | Proper(name) witness "a"

  type Extensions = map<ExtensionName, string>

  /** An event as the CloudEvents SDK holds it; an optional attribute that is not set is
      the empty string. `time` is its instant in RFC 3339, in UTC. */
  datatype CloudEvent = CloudEvent(specVersion: string, id: string, source: string, kind: string,
                                   time: Prelude.Option<string>, subject: string, dataContentType: string,
                                   dataSchema: string, extensions: Extensions, data: string)

  lemma {:induction false} LowerAt(s: string, i: nat)
    requires i < |s|
    ensures ToLower(s)[i] == Lower(s[i])
  {
    if i > 0 {
      LowerAt(s[1..], i - 1);
    }
  }

  lemma LoweredIsProper(name: string)
    requires ValidName(name) && ToLower(name) !in CORE
    ensures Proper(ToLower(name))
  {
    forall i | 0 <= i < |name| ensures ToLower(name)[i] == Lower(name[i]) {
      LowerAt(name, i);
    }
  }

  /** Event.SetExtension: names are lower-cased; an invalid or reserved one is an error
      the adapter ignores. */
  function SetExtension(extensions: Extensions, name: string, value: string): Extensions {
    if ValidName(name) && ToLower(name) !in CORE then
      LoweredIsProper(name);
      extensions[ToLower(name) := value]
    else extensions
  }

  /** The names the SDK takes: ASCII letters and digits, and none of the core attributes. */
  lemma TakenNames(name: string)
    ensures ValidName(name) <==>
              name != "" && forall i | 0 <= i < |name| ::
                'a' <= name[i] <= 'z' || 'A' <= name[i] <= 'Z' || '0' <= name[i] <= '9'
    ensures name in CORE <==>
              name in {"id", "source", "type", "datacontenttype", "subject", "time", "specversion", "dataschema"}
  {
  }

  /** Such a name sets the extension of its lower-case form and no other; any other name
      sets nothing. */
  lemma SetExtensionMeans(extensions: Extensions, name: string, value: string)
    ensures var low, after := ToLower(name), SetExtension(extensions, name, value);
            if ValidName(name) && low !in CORE
            then low in after && after[low] == value && after - {low} == extensions - {low}
            else after == extensions
  {
    var low := ToLower(name);
    if ValidName(name) && low !in CORE {
      LoweredIsProper(name);
      SetOnly(extensions, low, value);
    }
  }

  lemma SetOnly(extensions: Extensions, n: ExtensionName, value: string)
    ensures extensions[n := value] - {n} == extensions - {n}
  {
  }

  /** The override name k sets the extension n. */
  predicate Names(k: string, n: ExtensionName) {
    ValidName(k) && ToLower(k) == n
  }

  /** `result` is `base` with the overrides on top: an extension some override names has
      that override's value, every other one is as it was. */
  ghost predicate Merged(base: Extensions, overrides: map<string, string>, result: Extensions) {
    && (forall n: ExtensionName | n in result ::
          (n in base && result[n] == base[n] && forall k | k in overrides :: !Names(k, n))
          || (exists k | k in overrides :: Names(k, n) && result[n] == overrides[k]))
    && (forall n | n in base :: n in result)
    && (forall k, n: ExtensionName | k in overrides && Names(k, n) :: n in result)
  }

  lemma MergedNext(base: Extensions, applied: map<string, string>, r: Extensions, k: string, v: string)
    requires Merged(base, applied, r) && k !in applied
    ensures Merged(base, applied[k := v], SetExtension(r, k, v))
  {
    var r', applied' := SetExtension(r, k, v), applied[k := v];
    forall n: ExtensionName | n in r'
      ensures (n in base && r'[n] == base[n] && forall j | j in applied' :: !Names(j, n))
              || (exists j | j in applied' :: Names(j, n) && r'[n] == applied'[j])
    {
      if Names(k, n) {
        assert r'[n] == applied'[k];
      } else {
        assert n in r && r'[n] == r[n];
        if exists j | j in applied :: Names(j, n) && r[n] == applied[j] {
          var j :| j in applied && Names(j, n) && r[n] == applied[j];
          assert j in applied' && applied'[j] == applied[j];
        }
      }
    }
  }

  /** An order in which a range loop may visit the overrides: every name once. */
  ghost predicate RangeOrder(overrides: map<string, string>, order: seq<string>) {
    (forall k :: k in order <==> k in overrides) && forall i, j | 0 <= i < j < |order| :: order[i] != order[j]
  }

  ghost predicate Within(order: seq<string>, overrides: map<string, string>) {
    forall i | 0 <= i < |order| :: order[i] in overrides
  }

  /** What setting the overrides in this order makes of the extensions. */
  ghost function Applied(base: Extensions, overrides: map<string, string>, order: seq<string>): Extensions
    requires Within(order, overrides)
  {
    if order == [] then base
    else
      var n := |order| - 1;
      SetExtension(Applied(base, overrides, order[..n]), order[n], overrides[order[n]])
  }

  /** The range loop of Send over the overrides, in whatever order Go takes. */
  method ApplyOverrides(ev: CloudEvent, overrides: map<string, string>)
    returns (out: CloudEvent, ghost order: seq<string>)
    ensures RangeOrder(overrides, order)
    ensures out == ev.(extensions := Applied(ev.extensions, overrides, order))
    ensures Merged(ev.extensions, overrides, out.extensions)
  {
    out, order := ev, [];
    var todo := overrides.Keys;
    while todo != {}
      invariant todo <= overrides.Keys && Within(order, overrides)
      invariant forall k :: k in order <==> k in overrides && k !in todo
      invariant forall i, j | 0 <= i < j < |order| :: order[i] != order[j]
      invariant out == ev.(extensions := Applied(ev.extensions, overrides, order))
    {
      var k :| k in todo;
      assert (order + [k])[..|order|] == order;
      out := out.(extensions := SetExtension(out.extensions, k, overrides[k]));
      order := order + [k];
      todo := todo - {k};
    }
    OverridesOnTop(ev.extensions, overrides, order);
  }

  function Restricted(overrides: map<string, string>, order: seq<string>): map<string, string> {
    map k | k in order && k in overrides :: overrides[k]
  }

  lemma RestrictedNext(overrides: map<string, string>, order: seq<string>)
    requires order != [] && Within(order, overrides)
    ensures var n := |order| - 1;
            Restricted(overrides, order) == Restricted(overrides, order[..n])[order[n] := overrides[order[n]]]
  {
    assert order == order[..|order| - 1] + [order[|order| - 1]];
  }

  lemma {:induction false} AppliedMerged(base: Extensions, overrides: map<string, string>, order: seq<string>)
    requires Within(order, overrides) && forall i, j | 0 <= i < j < |order| :: order[i] != order[j]
    ensures Merged(base, Restricted(overrides, order), Applied(base, overrides, order))
  {
    if order != [] {
      var n := |order| - 1;
      AppliedMerged(base, overrides, order[..n]);
      var k := order[n];
      MergedNext(base, Restricted(overrides, order[..n]), Applied(base, overrides, order[..n]), k, overrides[k]);
      RestrictedNext(overrides, order);
    }
  }

  /** Whatever the order: every override's name has an override's value, and nothing
      else changes. */
  lemma OverridesOnTop(base: Extensions, overrides: map<string, string>, order: seq<string>)
    requires RangeOrder(overrides, order)
    ensures Merged(base, overrides, Applied(base, overrides, order))
  {
    AppliedMerged(base, overrides, order);
    assert Restricted(overrides, order) == overrides;
  }

  /** No two override names mean the same extension and say different things about it. */
  ghost predicate ClashFree(overrides: map<string, string>) {
    forall j, k, n: ExtensionName | j in overrides && k in overrides && Names(j, n) && Names(k, n) ::
      overrides[j] == overrides[k]
  }

  lemma OneValue(base: Extensions, overrides: map<string, string>, r1: Extensions, r2: Extensions, n: ExtensionName)
    requires ClashFree(overrides) && Merged(base, overrides, r1) && Merged(base, overrides, r2)
    ensures (n in r1 <==> n in r2) && (n in r1 ==> r1[n] == r2[n])
  {
  }

  lemma OneResult(base: Extensions, overrides: map<string, string>, r1: Extensions, r2: Extensions)
    requires ClashFree(overrides) && Merged(base, overrides, r1) && Merged(base, overrides, r2)
    ensures r1 == r2
  {
    forall n: ExtensionName ensures (n in r1 <==> n in r2) && (n in r1 ==> r1[n] == r2[n]) {
      OneValue(base, overrides, r1, r2, n);
    }
  }

  lemma {:induction false} AnyOrder(names: set<string>) returns (order: seq<string>)
    ensures forall k :: k in order <==> k in names
    ensures forall i, j | 0 <= i < j < |order| :: order[i] != order[j]
  {
    if names == {} {
      order := [];
    } else {
      var k :| k in names;
      var rest := AnyOrder(names - {k});
      order := rest + [k];
    }
  }

  /** Any name may come last, and then its value is the one that is sent. */
  lemma OrderEndingIn(base: Extensions, overrides: map<string, string>, last: string, n: ExtensionName)
    returns (order: seq<string>)
    requires last in overrides && Names(last, n)
    ensures RangeOrder(overrides, order)
    ensures n in Applied(base, overrides, order) && Applied(base, overrides, order)[n] == overrides[last]
  {
    var rest := AnyOrder(overrides.Keys - {last});
    order := rest + [last];
    assert order[..|rest|] == rest;
  }

  /** All orders of the range loop send the same event exactly if no two overrides
      clash. "Env" and "env" do: they are one attribute, and Go's map order decides
      which of their values is sent. */
  lemma OrdersAgreeIffClashFree(base: Extensions, overrides: map<string, string>)
    ensures (forall o1, o2 | RangeOrder(overrides, o1) && RangeOrder(overrides, o2) ::
               Applied(base, overrides, o1) == Applied(base, overrides, o2))
            <==> ClashFree(overrides)
  {
    if ClashFree(overrides) {
      forall o1, o2 | RangeOrder(overrides, o1) && RangeOrder(overrides, o2)
        ensures Applied(base, overrides, o1) == Applied(base, overrides, o2)
      {
        OverridesOnTop(base, overrides, o1);
        OverridesOnTop(base, overrides, o2);
        OneResult(base, overrides, Applied(base, overrides, o1), Applied(base, overrides, o2));
      }
    } else {
      var j, k, n: ExtensionName :| j in overrides && k in overrides && Names(j, n) && Names(k, n)
                                    && overrides[j] != overrides[k];
      var o1 := OrderEndingIn(base, overrides, j, n);
      var o2 := OrderEndingIn(base, overrides, k, n);
      assert Applied(base, overrides, o1) != Applied(base, overrides, o2);
    }
  }

  /** A clash takes names that are not lower-case, as "Env" and "env": the two are one
      attribute, and Go's map order decides which value is sent. */
  lemma CaseClashDependsOnOrder(extensions: Extensions, name: string, other: string, a: string, b: string)
    requires ValidName(name) && ValidName(other) && ToLower(name) == ToLower(other) && ToLower(name) !in CORE
    ensures (SetExtension(SetExtension(extensions, name, a), other, b)
             == SetExtension(SetExtension(extensions, other, b), name, a)) <==> a == b
  {
    var one := SetExtension(SetExtension(extensions, name, a), other, b);
    var two := SetExtension(SetExtension(extensions, other, b), name, a);
    assert one[ToLower(name)] == b && two[ToLower(name)] == a;
    if a == b {
      assert one == two;
    }
  }
}
