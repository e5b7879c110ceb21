/** The reference: one request, decoded alone, token by token. */
module Greedy {
  import opened Requests
  import opened Runtime
  import opened Serving

  /** The tokens a client sees: sample, stop before an end-of-sequence token or when the
      budget is used up, else emit the token and go on after it. */
  function Reference(cfg: Config, h: seq<Token>, budget: int): (tokens: seq<Token>)
    decreases budget
  {
    var t := cfg.next(ContextOf(h));
    if t == cfg.eos || budget - 1 <= 0 then [] else [t] + Reference(cfg, h + [t], budget - 1)
  }

  /** A token list is a greedy continuation of h: every token is what the model says after
      everything before it, and none of them ends the sequence. */
  ghost predicate Continues(cfg: Config, h: seq<Token>, tokens: seq<Token>)
  {
    forall i :: 0 <= i < |tokens| ==>
      tokens[i] == cfg.next(ContextOf(h + tokens[..i])) && tokens[i] != cfg.eos
  }

  /** The greedy continuation cut before the end of sequence or at budget - 1 tokens, said
      without a decoder. */
  ghost predicate IsCut(cfg: Config, h: seq<Token>, budget: int, tokens: seq<Token>)
  {
    && Continues(cfg, h, tokens)
    && (budget >= 1 ==> |tokens| <= budget - 1)
    && (budget < 1 ==> tokens == [])
    && (|tokens| < budget - 1 ==> cfg.next(ContextOf(h + tokens)) == cfg.eos)
  }

  lemma {:induction false} ReferenceIsCut(cfg: Config, h: seq<Token>, budget: int)
    ensures IsCut(cfg, h, budget, Reference(cfg, h, budget))
    decreases budget
  {
    var t, all := cfg.next(ContextOf(h)), Reference(cfg, h, budget);
    if !(t == cfg.eos || budget - 1 <= 0) {
      var rest := Reference(cfg, h + [t], budget - 1);
      ReferenceIsCut(cfg, h + [t], budget - 1);
      forall i | 0 <= i < |all| ensures all[i] == cfg.next(ContextOf(h + all[..i])) && all[i] != cfg.eos {
        if i == 0 {
          assert h + all[..0] == h;
        } else {
          assert h + all[..i] == (h + [t]) + rest[..i - 1];
        }
      }
      assert h + all == (h + [t]) + rest;
    } else {
      assert h + [] == h;
    }
  }

  /** There is only one such list. */
  lemma {:induction false} CutIsUnique(cfg: Config, h: seq<Token>, budget: int, a: seq<Token>, b: seq<Token>)
    requires IsCut(cfg, h, budget, a) && IsCut(cfg, h, budget, b)
    ensures a == b
  {
    var n := if |a| < |b| then |a| else |b|;
    SamePrefix(cfg, h, a, b, n);
    assert |a| <= |b| ==> b[..n] == a;
    assert |b| <= |a| ==> a[..n] == b;
  }

  lemma {:induction false} SamePrefix(cfg: Config, h: seq<Token>, a: seq<Token>, b: seq<Token>, n: nat)
    requires Continues(cfg, h, a) && Continues(cfg, h, b) && n <= |a| && n <= |b|
    ensures a[..n] == b[..n]
  {
    if n > 0 {
      SamePrefix(cfg, h, a, b, n - 1);
      assert a[..n] == a[..n - 1] + [a[n - 1]] && b[..n] == b[..n - 1] + [b[n - 1]];
    }
  }

  /** What is still to come after `out`: the reference picks up where it stands. */
  ghost predicate OnTrack(cfg: Config, prompt: seq<Token>, max: int, out: seq<Token>, remaining: int)
  {
    Reference(cfg, prompt, max) == out + Reference(cfg, prompt + out, remaining)
  }

  lemma TrackStep(cfg: Config, prompt: seq<Token>, max: int, out: seq<Token>, remaining: int)
    requires OnTrack(cfg, prompt, max, out, remaining)
    ensures var t := cfg.next(ContextOf(prompt + out));
            if t == cfg.eos || remaining - 1 <= 0 then Reference(cfg, prompt, max) == out
            else OnTrack(cfg, prompt, max, out + [t], remaining - 1)
  {
    var t := cfg.next(ContextOf(prompt + out));
    if !(t == cfg.eos || remaining - 1 <= 0) {
      var rest := Reference(cfg, prompt + out + [t], remaining - 1);
      assert out + ([t] + rest) == (out + [t]) + rest;
      assert prompt + out + [t] == prompt + (out + [t]);
    } else {
      assert out + [] == out;
    }
  }
}
