/** The conditions of a YipYapSource (yipyapsource_lifecycle.go), kept by the condition
    manager of knative.dev/pkg/apis. */
module Lifecycle {
  import opened Prelude

  datatype Truth = True | False | Unknown

  datatype CondType = Ready | SinkProvided | Deployed

  /** The reason of a condition and its message. */
  datatype Detail = Detail(reason: string, message: string)

  const SILENT: Detail := Detail("", "")
  const SINK_EMPTY: Detail := Detail("SinkEmpty", "Sink has no URI")

  datatype Condition = Condition(status: Truth, detail: Detail)

  /** A condition may not be set yet. */
  type Conditions = map<CondType, Condition>

  const DEPENDENTS: seq<CondType> := [SinkProvided, Deployed]

  function Other(t: CondType): CondType {
    if t == SinkProvided then Deployed else SinkProvided
  }

  predicate Is(cs: Conditions, t: CondType, x: Truth) {
    t in cs && cs[t].status == x
  }

  /** What Ready should say: False trumps Unknown, and a condition nobody set counts
      as Unknown. */
  function Summary(cs: Conditions): Truth {
    if Is(cs, SinkProvided, False) || Is(cs, Deployed, False) then False
    else if Is(cs, SinkProvided, True) && Is(cs, Deployed, True) then True
    else Unknown
  }

  lemma SummaryMeans(cs: Conditions)
    ensures Summary(cs) == True <==> Is(cs, SinkProvided, True) && Is(cs, Deployed, True)
    ensures Summary(cs) == False <==> Is(cs, SinkProvided, False) || Is(cs, Deployed, False)
  {
  }

  /** The dependent whose unhappiness Ready takes over, if `first` changed last. */
  function Unhappy(cs: Conditions, first: CondType): (r: Option<Condition>)
    requires first in DEPENDENTS
    ensures if Summary(cs) == True then r.None? else r.Some? && r.value.status == Summary(cs)
  {
    var second := Other(first);
    if Is(cs, first, False) then Some(cs[first])
    else if Is(cs, second, False) then Some(cs[second])
    else if Is(cs, first, Unknown) then Some(cs[first])
    else if Is(cs, second, Unknown) then Some(cs[second])
    else if first in cs && second in cs then None
    else Some(Condition(Unknown, SILENT))
  }

  /** What becomes of Ready when a dependent is set. It takes over what makes the other
      one unhappy when this one is happy, and this one's word otherwise; but a Ready that
      is False by the other one keeps its own. */
  function Marked(cs: Conditions, t: CondType, c: Condition): (after: Conditions)
    requires t in DEPENDENTS
    ensures Is(after, Ready, Summary(after)) && Summary(after) == Summary(cs[t := c])
  {
    var set1 := cs[t := c];
    match c.status
    case True => set1[Ready := if Unhappy(set1, t).Some? then Unhappy(set1, t).value else Condition(True, SILENT)]
    case False => set1[Ready := c]
    case Unknown =>
      if !Is(set1, Other(t), False) then set1[Ready := c]
      else if Is(set1, Ready, False) then set1
      else set1[Ready := Condition(False, c.detail)]
  }

  /** Every condition that is not set becomes Unknown; but under a Ready that is True a
      missing dependent becomes True. One that is set stays as it is. */
  function Initialized(cs: Conditions): Conditions {
    var happy := if Ready in cs then cs[Ready] else Condition(Unknown, SILENT);
    var fill := Condition(if happy.status == True then True else Unknown, SILENT);
    map[Ready := happy,
        SinkProvided := if SinkProvided in cs then cs[SinkProvided] else fill,
        Deployed := if Deployed in cs then cs[Deployed] else fill]
  }

  /** One mark: the condition is what was said, the other one stays, and Ready is unhappy
      for the reason of the one that is. */
  lemma MarkedMeans(cs: Conditions, t: CondType, c: Condition)
    requires t == SinkProvided || t == Deployed
    ensures var after, other := Marked(cs, t, c), if t == SinkProvided then Deployed else SinkProvided;
            && t in after && after[t] == c && Ready in after
            && (other in after <==> other in cs) && (other in cs ==> after[other] == cs[other])
            && (c.status == False ==> after[Ready] == c)
            && (c.status == Unknown && !(other in cs && cs[other].status == False) ==> after[Ready] == c)
            && (c.status == Unknown && other in cs && cs[other].status == False ==>
                  after[Ready] == (if Ready in cs && cs[Ready].status == False then cs[Ready] else Condition(False, c.detail)))
            && (c.status == True ==>
                  after[Ready] == (if other !in cs then Condition(Unknown, Detail("", ""))
                                   else if cs[other].status == True then Condition(True, Detail("", ""))
                                   else cs[other]))
  {
  }

  /** What is set stays, whatever it says. */
  lemma InitializedMeans(cs: Conditions, t: CondType)
    ensures t in Initialized(cs)
    ensures Initialized(cs)[t] == if t in cs then cs[t]
                                  else if t != Ready && Ready in cs && cs[Ready].status == True
                                  then Condition(True, Detail("", "")) else Condition(Unknown, Detail("", ""))
  {
  }

  class SourceStatus {
    var conditions: Conditions
    var sinkUri: Option<string>

    constructor ()
      ensures conditions == map[] && sinkUri == None
    {
      conditions, sinkUri := map[], None;
    }

    /** findUnhappyDependent: the condition to propagate, if a dependent is unhappy. The
        one that changed last, which is `first`, is looked at first. */
    method FindUnhappyDependent(first: CondType) returns (r: Option<Condition>)
      requires first in DEPENDENTS
      ensures r == Unhappy(conditions, first)
    {
      var order := [first, Other(first)];
      assert order[0] == first && order[1] == Other(first);
      var present := 0;
      for i := 0 to |order|
        invariant forall j | 0 <= j < i :: !Is(conditions, order[j], False)
      {
        if Is(conditions, order[i], False) {
          return Some(conditions[order[i]]);
        }
      }
      for i := 0 to |order|
        invariant forall j | 0 <= j < i :: !Is(conditions, order[j], Unknown)
        invariant present <= i
        invariant present == i <==> forall j | 0 <= j < i :: order[j] in conditions
      {
        if Is(conditions, order[i], Unknown) {
          return Some(conditions[order[i]]);
        }
        if order[i] in conditions {
          present := present + 1;
        }
      }
      if |order| > present {
        return Some(Condition(Unknown, SILENT));
      }
      r := None;
    }

    /** Which of the two dependents changed last makes no difference: one of them is the
        one that is happy now. */
    method MarkTrue(t: CondType)
      requires t in DEPENDENTS
      modifies this`conditions
      ensures conditions == Marked(old(conditions), t, Condition(True, SILENT))
    {
      conditions := conditions[t := Condition(True, SILENT)];
      var first :| first in DEPENDENTS;
      var unhappy := FindUnhappyDependent(first);
      if unhappy.Some? {
        conditions := conditions[Ready := unhappy.value];
      } else {
        conditions := conditions[Ready := Condition(True, SILENT)];
      }
    }

    method MarkFalse(t: CondType, detail: Detail)
      modifies this`conditions
      ensures t in DEPENDENTS ==> conditions == Marked(old(conditions), t, Condition(False, detail))
      ensures t == Ready ==> conditions == old(conditions)[Ready := Condition(False, detail)]
    {
      conditions := conditions[t := Condition(False, detail)];
      if t in DEPENDENTS {
        conditions := conditions[Ready := Condition(False, detail)];
      }
    }

    /** For Ready itself, which the generated reconciler resets on a new generation, a
        False dependent wins too. */
    method MarkUnknown(t: CondType, detail: Detail)
      modifies this`conditions
      ensures t in DEPENDENTS ==> conditions == Marked(old(conditions), t, Condition(Unknown, detail))
      ensures t == Ready ==> conditions == old(conditions)[Ready := ResetReady(old(conditions), detail)]
    {
      conditions := conditions[t := Condition(Unknown, detail)];
      ghost var set1 := conditions;
      assert DEPENDENTS[0] == SinkProvided && DEPENDENTS[1] == Deployed;
      var isDependent := false;
      for i := 0 to |DEPENDENTS|
        invariant conditions == set1
        invariant forall j | 0 <= j < i :: !Is(conditions, DEPENDENTS[j], False)
        invariant isDependent <==> t in DEPENDENTS[..i]
      {
        if Is(conditions, DEPENDENTS[i], False) {
          if !Is(conditions, Ready, False) {
            MarkFalse(Ready, detail);
          }
          return;
        }
        if DEPENDENTS[i] == t {
          isDependent := true;
        }
      }
      if isDependent {
        conditions := conditions[Ready := Condition(Unknown, detail)];
      }
    }

    method InitializeConditions()
      modifies this`conditions
      ensures conditions == Initialized(old(conditions))
    {
      if Ready !in conditions {
        conditions := conditions[Ready := Condition(Unknown, SILENT)];
      }
      var status := Condition(if conditions[Ready].status == True then True else Unknown, SILENT);
      if SinkProvided !in conditions {
        conditions := conditions[SinkProvided := status];
      }
      if Deployed !in conditions {
        conditions := conditions[Deployed := status];
      }
      ghost var init := Initialized(old(conditions));
      forall t: CondType ensures t in conditions && t in init && conditions[t] == init[t] {
        match t case Ready => case SinkProvided => case Deployed =>
      }
    }

    method MarkSink(uri: Option<string>)
      modifies this
      ensures sinkUri == uri && conditions == Apply(old(conditions), Sink(uri))
    {
      sinkUri := uri;
      if uri.Some? && uri.value != "" {
        MarkTrue(SinkProvided);
      } else {
        MarkUnknown(SinkProvided, SINK_EMPTY);
      }
    }

    method MarkNoSink(detail: Detail)
      modifies this`conditions
      ensures conditions == Apply(old(conditions), NoSink(detail))
    {
      MarkFalse(SinkProvided, detail);
    }

    method MarkDeployed()
      modifies this`conditions
      ensures conditions == Apply(old(conditions), IsDeployed)
    {
      MarkTrue(Deployed);
    }

    method MarkNotDeployed(detail: Detail)
      modifies this`conditions
      ensures conditions == Apply(old(conditions), NotDeployed(detail))
    {
      MarkFalse(Deployed, detail);
    }

    method MarkDeploying(detail: Detail)
      modifies this`conditions
      ensures conditions == Apply(old(conditions), Deploying(detail))
    {
      MarkUnknown(Deployed, detail);
    }
  }

  /** What a reset makes of Ready. */
  function ResetReady(cs: Conditions, detail: Detail): Condition {
    Condition(if Summary(cs) == False then False else Unknown, detail)
  }

  /** The Mark methods of YipYapSourceStatus. */
  datatype Mark =
    | Sink(uri: Option<string>)
    | NoSink(detail: Detail)
    | IsDeployed
    | NotDeployed(detail: Detail)
    | Deploying(detail: Detail)

  function Concerns(m: Mark): CondType {
    if m.Sink? || m.NoSink? then SinkProvided else Deployed
  }

  function Says(m: Mark): Condition {
    match m
    case Sink(uri) => if uri.Some? && uri.value != "" then Condition(True, SILENT) else Condition(Unknown, SINK_EMPTY)
    case NoSink(detail) => Condition(False, detail)
    case IsDeployed => Condition(True, SILENT)
    case NotDeployed(detail) => Condition(False, detail)
    case Deploying(detail) => Condition(Unknown, detail)
  }

  function Apply(cs: Conditions, m: Mark): Conditions {
    Marked(cs, Concerns(m), Says(m))
  }

  /** What each method marks, and as what. */
  lemma MarksMean(cs: Conditions, uri: string, d: Detail)
    ensures Apply(cs, Sink(Some(uri)))
            == Marked(cs, SinkProvided, if uri != "" then Condition(True, Detail("", ""))
                                        else Condition(Unknown, Detail("SinkEmpty", "Sink has no URI")))
    ensures Apply(cs, Sink(None)) == Marked(cs, SinkProvided, Condition(Unknown, Detail("SinkEmpty", "Sink has no URI")))
    ensures Apply(cs, NoSink(d)) == Marked(cs, SinkProvided, Condition(False, d))
    ensures Apply(cs, IsDeployed) == Marked(cs, Deployed, Condition(True, Detail("", "")))
    ensures Apply(cs, NotDeployed(d)) == Marked(cs, Deployed, Condition(False, d))
    ensures Apply(cs, Deploying(d)) == Marked(cs, Deployed, Condition(Unknown, d))
  {
  }

  function ApplyAll(cs: Conditions, marks: seq<Mark>): Conditions {
    if marks == [] then cs else Apply(ApplyAll(cs, marks[..|marks| - 1]), marks[|marks| - 1])
  }

  /** The latest mark of a history that concerns a condition. */
  function LatestAbout(marks: seq<Mark>, t: CondType): Option<Mark> {
    if marks == [] then None
    else if Concerns(marks[|marks| - 1]) == t then Some(marks[|marks| - 1])
    else LatestAbout(marks[..|marks| - 1], t)
  }

  /** Each dependent condition says what the latest mark about it said, and Ready sums
      them up, from whatever conditions the history started. */
  lemma {:induction false} MarksStand(cs: Conditions, marks: seq<Mark>)
    ensures forall t | t == SinkProvided || t == Deployed ::
              LatestAbout(marks, t).Some? ==> t in ApplyAll(cs, marks)
                                              && ApplyAll(cs, marks)[t] == Says(LatestAbout(marks, t).value)
    ensures forall t | t == SinkProvided || t == Deployed ::
              LatestAbout(marks, t).None? ==> (t in ApplyAll(cs, marks) <==> t in cs)
                                              && (t in cs ==> ApplyAll(cs, marks)[t] == cs[t])
    ensures marks != [] ==> Is(ApplyAll(cs, marks), Ready, Summary(ApplyAll(cs, marks)))
  {
    if marks != [] {
      MarksStand(cs, marks[..|marks| - 1]);
    }
  }

  /** Ready over unbounded histories: on a fresh status it holds if and only if the
      latest word on the sink was MarkSink with a URI and the latest word on the
      Deployment was MarkDeployed. */
  lemma ReadyIffLatestMarks(marks: seq<Mark>)
    ensures Is(ApplyAll(Initialized(map[]), marks), Ready, True) <==>
              && LatestAbout(marks, SinkProvided).Some?
              && LatestAbout(marks, SinkProvided).value.Sink?
              && LatestAbout(marks, SinkProvided).value.uri.Some?
              && LatestAbout(marks, SinkProvided).value.uri.value != ""
              && LatestAbout(marks, Deployed) == Some(IsDeployed)
  {
    MarksStand(Initialized(map[]), marks);
    LatestConcerns(marks, SinkProvided);
    LatestConcerns(marks, Deployed);
  }

  lemma {:induction false} LatestConcerns(marks: seq<Mark>, t: CondType)
    ensures LatestAbout(marks, t).Some? ==> Concerns(LatestAbout(marks, t).value) == t
  {
    if marks != [] {
      LatestConcerns(marks[..|marks| - 1], t);
    }
  }
}
