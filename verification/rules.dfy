/**
 * Priority-ordered substring rules, the shape shared by the error, hint and
 * semantic-note classifiers: the first rule that fires decides, and a
 * fallback applies when none does.
 */
module Rules {
  import opened Text

  /**
   * A rule fires when one of its alternatives holds; an alternative holds
   * when the text contains every one of its markers.
   */
  datatype Rule<K> = Rule(alternatives: seq<seq<string>>, outcome: K)

  /** A rule that fires when the text contains the one marker m. */
  function Marker<K>(m: string, k: K): Rule<K> {
    Rule([[m]], k)
  }

  /** A rule that fires when the text contains a or b. */
  function EitherOf<K>(a: string, b: string, k: K): Rule<K> {
    Rule([[a], [b]], k)
  }

  /** A rule that fires when the text contains one of a, b and c. */
  function AnyOf3<K>(a: string, b: string, c: string, k: K): Rule<K> {
    Rule([[a], [b], [c]], k)
  }

  /** A rule that fires when the text contains both a and b. */
  function BothOf<K>(a: string, b: string, k: K): Rule<K> {
    Rule([[a, b]], k)
  }

  predicate Holds(text: string, markers: seq<string>) {
    forall m :: m in markers ==> Contains(text, m)
  }

  predicate Fires<K>(r: Rule<K>, text: string) {
    exists alt :: alt in r.alternatives && Holds(text, alt)
  }

  lemma MarkerFires<K>(m: string, k: K, text: string)
    ensures Fires(Marker(m, k), text) <==> Contains(text, m)
  {
    assert Holds(text, [m]) <==> Contains(text, m);
  }

  lemma EitherOfFires<K>(a: string, b: string, k: K, text: string)
    ensures Fires(EitherOf(a, b, k), text) <==> Contains(text, a) || Contains(text, b)
  {
    assert Holds(text, [a]) <==> Contains(text, a);
    assert Holds(text, [b]) <==> Contains(text, b);
  }

  lemma AnyOf3Fires<K>(a: string, b: string, c: string, k: K, text: string)
    ensures Fires(AnyOf3(a, b, c, k), text) <==> Contains(text, a) || Contains(text, b) || Contains(text, c)
  {
    assert Holds(text, [a]) <==> Contains(text, a);
    assert Holds(text, [b]) <==> Contains(text, b);
    assert Holds(text, [c]) <==> Contains(text, c);
  }

  lemma BothOfFires<K>(a: string, b: string, k: K, text: string)
    ensures Fires(BothOf(a, b, k), text) <==> Contains(text, a) && Contains(text, b)
  {
    assert Holds(text, [a, b]) <==> Contains(text, a) && Contains(text, b);
  }

  /** Index of the first rule at or after i that fires, or |rules| when none does. */
  function FiringIndex<K>(rules: seq<Rule<K>>, text: string, i: nat): (r: nat)
    requires i <= |rules|
    ensures i <= r <= |rules|
    ensures forall j :: i <= j < r ==> !Fires(rules[j], text)
    ensures r < |rules| ==> Fires(rules[r], text)
    decreases |rules| - i
  {
    if i == |rules| then i
    else if Fires(rules[i], text) then i
    else FiringIndex(rules, text, i + 1)
  }

  /** The outcome of the first rule that fires, or the fallback. */
  function FirstFiring<K>(rules: seq<Rule<K>>, text: string, fallback: K): (k: K)
    ensures (forall i :: 0 <= i < |rules| ==> !Fires(rules[i], text)) ==> k == fallback
    ensures forall i :: 0 <= i < |rules| && Fires(rules[i], text) && (forall j :: 0 <= j < i ==> !Fires(rules[j], text)) ==> k == rules[i].outcome
  {
    var i := FiringIndex(rules, text, 0);
    if i < |rules| then rules[i].outcome else fallback
  }

  /** When rule i is the first to fire (or none fires, i == |rules|), it decides. */
  lemma FirstFiringPicks<K>(rules: seq<Rule<K>>, text: string, fallback: K, i: nat)
    requires i <= |rules|
    requires forall j :: 0 <= j < i ==> !Fires(rules[j], text)
    requires i < |rules| ==> Fires(rules[i], text)
    ensures FirstFiring(rules, text, fallback) == if i < |rules| then rules[i].outcome else fallback
  {
  }
}
