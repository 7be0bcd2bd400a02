/** The include/exclude decision of `AnalyzeBuilds.matches`, used for root
    projects, user tags, requested tasks and task types.  A criterion is an
    optional value of some type `T`; `matcher` turns a criterion into a
    predicate on single elements.  Regular-expression matching of requested
    tasks is left abstract: the caller supplies the predicate. */
module Filters {
  import opened Common

  /** `elements.stream().anyMatch(p)`. */
  function AnyMatch(elements: seq<string>, p: string -> bool): (r: bool)
    ensures r <==> exists i :: 0 <= i < |elements| && p(elements[i])
  {
    if |elements| == 0 then false
    else if p(elements[0]) then true
    else
      var rest := AnyMatch(elements[1..], p);
      assert forall i :: 1 <= i < |elements| ==> elements[i] == elements[1..][i - 1];
      rest
  }

  /** The filter decision: rejected when an include criterion is set and no
      element satisfies it, or when an exclude criterion is set and some
      element satisfies it; accepted otherwise. */
  function Matches<T>(elements: seq<string>, includes: Option<T>, excludes: Option<T>,
                      matcher: T -> string -> bool): (r: bool)
    ensures includes.None? && excludes.None? ==> r
    ensures includes.Some? && |elements| == 0 ==> !r
    ensures r <==>
      && (includes.Some? ==> exists i :: 0 <= i < |elements| && matcher(includes.value)(elements[i]))
      && (excludes.Some? ==> forall i :: 0 <= i < |elements| ==> !matcher(excludes.value)(elements[i]))
  {
    if includes.Some? && !AnyMatch(elements, matcher(includes.value)) then false
    else if excludes.Some? && AnyMatch(elements, matcher(excludes.value)) then false
    else true
  }

  /** `matches` handed a list that may be null (the requested tasks of a
      build that never sent them): the list is only dereferenced when a
      criterion is set, and dereferencing null fails. */
  function MatchesNullable<T>(elements: Option<seq<string>>, includes: Option<T>, excludes: Option<T>,
                              matcher: T -> string -> bool): (r: Result<bool>)
    ensures r.Failure? <==> elements.None? && (includes.Some? || excludes.Some?)
    ensures r.Failure? ==> r.error == NullElements
    ensures includes.None? && excludes.None? ==> r == Success(true)
    ensures elements.Some? ==> r == Success(Matches(elements.value, includes, excludes, matcher))
  {
    if includes.None? && excludes.None? then Success(true)
    else if elements.None? then Failure(NullElements)
    else Success(Matches(elements.value, includes, excludes, matcher))
  }

  /** The matcher used for project and tag lists (`pattern -> pattern::contains`):
      an element matches a list when it is one of its entries. */
  function ContainedIn(pattern: seq<string>): string -> bool
  {
    (e: string) => e in pattern
  }

  /** The matcher the task-type filter passes (`pattern -> task.type::startsWith`):
      it ignores the configured list and asks whether the task type starts
      with the element, and the only element is the task type itself. */
  function TaskTypeMatcherAsWritten(taskType: string): seq<string> -> string -> bool
  {
    (pattern: seq<string>) => (e: string) => e <= taskType
  }

  /** The task-type filter as written: a configured include list admits every
      task, a configured exclude list rejects every task. */
  function AdmitsTaskTypeAsWritten(taskType: string, includes: Option<seq<string>>,
                                   excludes: Option<seq<string>>): (r: bool)
    ensures r <==> excludes.None?
  {
    var matcher := TaskTypeMatcherAsWritten(taskType);
    assert matcher(if includes.Some? then includes.value else [])([taskType][0]);
    Matches([taskType], includes, excludes, matcher)
  }

  /** Whether `s` starts with one of `prefixes`. */
  function StartsWithAny(s: string, prefixes: seq<string>): (r: bool)
    ensures r <==> exists i :: 0 <= i < |prefixes| && prefixes[i] <= s
  {
    AnyMatch(prefixes, (p: string) => p <= s)
  }

  /** The task-type filter as its option descriptions describe it: include
      only types starting with one of the include prefixes, exclude types
      starting with one of the exclude prefixes. */
  function AdmitsTaskTypeIntended(taskType: string, includes: Option<seq<string>>,
                                  excludes: Option<seq<string>>): (r: bool)
    ensures r <==>
      && (includes.Some? ==> StartsWithAny(taskType, includes.value))
      && (excludes.Some? ==> !StartsWithAny(taskType, excludes.value))
  {
    Matches([taskType], includes, excludes,
            (pattern: seq<string>) => (e: string) => StartsWithAny(e, pattern))
  }

  /** An include list none of whose prefixes fits the task type still admits
      it as written, and does not as intended. */
  lemma TaskTypeFilterIgnoresPatterns()
    ensures AdmitsTaskTypeAsWritten("org.gradle.Copy", Some(["com.example."]), None)
    ensures !AdmitsTaskTypeIntended("org.gradle.Copy", Some(["com.example."]), None)
  {
    assert !StartsWithAny("org.gradle.Copy", ["com.example."]) by {
      var p, s := "com.example.", "org.gradle.Copy";
      assert p[0] != s[0];
    }
  }
}
