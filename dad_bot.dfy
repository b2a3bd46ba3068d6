/**
 * The trigger test of the dad-joke bot (dad_bot/src/misc.rs): a message
 * qualifies when, lower-cased, it contains one of the "I am" spellings and
 * none of the opt-out markers.
 */
module DadBot {
  import opened Strings

  /** `DAD_TRIGGER`; the last two are the same curly-apostrophe spelling. */
  const Triggers: seq<string> := ["im", "i am", "i'm", "i\U{2019}m", "i\U{2019}m"]

  /** `DAD_ANTI_TRIGGER`. */
  const AntiTriggers: seq<string> := ["(shut)", "(stfu)", "(no)"]

  /** `patterns.iter().any(|&x| msg.contains(x))`, scanning the list in order. */
  function AnyContained(msg: string, patterns: seq<string>): bool {
    if patterns == [] then false
    else Contains(msg, patterns[0]) || AnyContained(msg, patterns[1..])
  }

  /** The scan finds a pattern exactly when some pattern of the list occurs. */
  lemma {:induction false} AnyContainedSpec(msg: string, patterns: seq<string>)
    ensures AnyContained(msg, patterns) <==> exists k :: 0 <= k < |patterns| && Contains(msg, patterns[k])
  {
    if patterns != [] {
      AnyContainedSpec(msg, patterns[1..]);
      if !Contains(msg, patterns[0]) {
        forall k | 1 <= k < |patterns| ensures patterns[k] == patterns[1..][k - 1] {}
      }
    }
  }

  /** `dadable`. */
  predicate Dadable(msg: string) {
    var m := Lower(msg);
    AnyContained(m, Triggers) && !AnyContained(m, AntiTriggers)
  }

  /** Qualifying means: some trigger occurs in the lower-cased text and no opt-out marker does. */
  lemma DadableSpec(msg: string)
    ensures Dadable(msg) <==>
      (exists k :: 0 <= k < |Triggers| && Contains(Lower(msg), Triggers[k]))
      && !(exists k :: 0 <= k < |AntiTriggers| && Contains(Lower(msg), AntiTriggers[k]))
  {
    AnyContainedSpec(Lower(msg), Triggers);
    AnyContainedSpec(Lower(msg), AntiTriggers);
  }

  /** Any opt-out marker vetoes the message, whatever triggers it holds. */
  lemma AntiTriggerWins(msg: string, k: nat)
    requires k < |AntiTriggers| && Contains(Lower(msg), AntiTriggers[k])
    ensures !Dadable(msg)
  {
    DadableSpec(msg);
  }

  /** The test ignores ASCII case. */
  lemma DadableIgnoresCase(msg: string)
    ensures Dadable(msg) == Dadable(Lower(msg))
  {
    LowerIdempotent(msg);
  }

  /** A pattern whose first character is absent does not occur. */
  lemma AbsentFirst(s: string, sub: string)
    requires sub != [] && sub[0] !in s
    ensures !Contains(s, sub)
  {
  }

  /** Triggers are plain substrings: "im" inside "Swimming" qualifies it. */
  lemma SwimmingQualifies(msg: string)
    requires msg == "Swimming"
    ensures Dadable(msg)
  {
    var m := Lower(msg);
    assert m == "swimming";
    assert OccursAt(m, "im", 2) by {
      assert m[2..4] == "im";
    }
    assert Contains(m, Triggers[0]);
    forall k | 0 <= k < |AntiTriggers| ensures !Contains(m, AntiTriggers[k]) {
      assert AntiTriggers[k][0] == '(';
      AbsentFirst(m, AntiTriggers[k]);
    }
    DadableSpec(msg);
  }
}
