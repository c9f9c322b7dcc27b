/** How much of a conversation goes into a prompt: truncation to a token budget from the oldest end. */
module ContextBuffer {
  const BUFFER_MAX_MESSAGES := 20
  const BUFFER_MIN_MESSAGES := 5

  function Min(a: nat, b: nat): nat {
    if a < b then a else b
  }

  function Max(a: nat, b: nat): nat {
    if a < b then b else a
  }

  /** `xs[-k:]` for positive k. */
  function LastOf<M>(messages: seq<M>, k: nat): (last: seq<M>)
    ensures |messages| <= k ==> last == messages
    ensures k < |messages| ==> last == messages[|messages| - k..]
  {
    messages[|messages| - Min(k, |messages|)..]
  }

  /** The tokens of the last `k` messages. */
  function TailTokens<M>(tokens: M -> nat, buffer: seq<M>, k: nat): nat
    requires k <= |buffer|
  {
    if k == 0 then 0 else TailTokens(tokens, buffer, k - 1) + tokens(buffer[|buffer| - k])
  }

  /** Tokens add up: those of the last `k` messages are those of any two stretches of them. */
  lemma {:induction false} TokensAddUp<M>(tokens: M -> nat, front: seq<M>, back: seq<M>, k: nat)
    requires k <= |front|
    ensures TailTokens(tokens, front + back, |back| + k)
            == TailTokens(tokens, front, k) + TailTokens(tokens, back, |back|)
    ensures forall m :: TailTokens(tokens, [m], 1) == tokens(m)
  {
    if k == 0 {
      SameTail(tokens, front, back, |back|);
    } else {
      TokensAddUp(tokens, front, back, k - 1);
    }
  }

  lemma {:induction false} SameTail<M>(tokens: M -> nat, front: seq<M>, back: seq<M>, k: nat)
    requires k <= |back|
    ensures TailTokens(tokens, front + back, k) == TailTokens(tokens, back, k)
  {
    if k > 0 {
      SameTail(tokens, front, back, k - 1);
    }
  }

  lemma {:induction false} LongerTailsHoldMore<M>(tokens: M -> nat, buffer: seq<M>, j: nat, k: nat)
    requires j <= k <= |buffer|
    ensures TailTokens(tokens, buffer, j) <= TailTokens(tokens, buffer, k)
  {
    if j < k {
      LongerTailsHoldMore(tokens, buffer, j, k - 1);
    }
  }

  /** `k` is the length of the longest tail within the budget; 0 if none is. */
  ghost predicate IsLongestFit<M>(tokens: M -> nat, buffer: seq<M>, budget: int, k: nat) {
    && k <= |buffer|
    && (k > 0 ==> TailTokens(tokens, buffer, k) <= budget)
    && forall j :: k < j <= |buffer| ==> TailTokens(tokens, buffer, j) > budget
  }

  lemma {:induction false} LongestFitExists<M>(tokens: M -> nat, buffer: seq<M>, budget: int, n: nat) returns (k: nat)
    requires n <= |buffer| && forall j :: n < j <= |buffer| ==> TailTokens(tokens, buffer, j) > budget
    ensures IsLongestFit(tokens, buffer, budget, k)
  {
    if n == 0 || TailTokens(tokens, buffer, n) <= budget {
      k := n;
    } else {
      k := LongestFitExists(tokens, buffer, budget, n - 1);
    }
  }

  lemma LongestFitIsOne<M>(tokens: M -> nat, buffer: seq<M>, budget: int, j: nat, k: nat)
    requires IsLongestFit(tokens, buffer, budget, j) && IsLongestFit(tokens, buffer, budget, k)
    ensures j == k
  {
  }

  lemma StoppingIsLongest<M>(tokens: M -> nat, buffer: seq<M>, budget: int, k: nat)
    requires k <= |buffer| && TailTokens(tokens, buffer, k) <= budget
    requires k < |buffer| ==> TailTokens(tokens, buffer, k + 1) > budget
    ensures IsLongestFit(tokens, buffer, budget, k)
  {
    forall j | k < j <= |buffer| ensures TailTokens(tokens, buffer, j) > budget {
      LongerTailsHoldMore(tokens, buffer, k + 1, j);
    }
  }

  /** What truncation is for: the newest messages, as many as fit, but five if there are. */
  ghost predicate FitsBest<M>(tokens: M -> nat, buffer: seq<M>, budget: int, kept: seq<M>) {
    exists k :: IsLongestFit(tokens, buffer, budget, k) && kept == LastOf(buffer, Max(k, BUFFER_MIN_MESSAGES))
  }

  /** The best fit is a tail of at least five messages, if there are, and over budget only at that minimum. */
  lemma OverBudgetOnlyAtMinimum<M>(tokens: M -> nat, buffer: seq<M>, budget: int, kept: seq<M>)
    requires FitsBest(tokens, buffer, budget, kept)
    ensures Min(5, |buffer|) <= |kept| <= |buffer| && kept == buffer[|buffer| - |kept|..]
    ensures TailTokens(tokens, buffer, |kept|) > budget ==> |kept| <= 5
    ensures |kept| < |buffer| ==> TailTokens(tokens, buffer, |kept| + 1) > budget
  {
  }

  /** For a positive budget truncation keeps the best fit; otherwise the last five messages. */
  method TruncateBuffer<M>(tokens: M -> nat, buffer: seq<M>, budget: int) returns (kept: seq<M>)
    ensures budget > 0 ==> FitsBest(tokens, buffer, budget, kept)
    ensures budget <= 0 ==> kept == LastOf(buffer, 5)
  {
    if budget <= 0 {
      return LastOf(buffer, BUFFER_MIN_MESSAGES);
    }
    kept := [];
    var running, n := 0, 0;
    while n < |buffer|
      invariant 0 <= n <= |buffer| && kept == buffer[|buffer| - n..]
      invariant running == TailTokens(tokens, buffer, n)
      invariant running > budget ==> n <= BUFFER_MIN_MESSAGES
    {
      var message := buffer[|buffer| - 1 - n];
      if running + tokens(message) > budget && |kept| >= BUFFER_MIN_MESSAGES {
        break;
      }
      kept := [message] + kept;
      running := running + tokens(message);
      n := n + 1;
    }
    var k := BestFit(tokens, buffer, budget, n);
  }

  /** Where the loop stops, the count kept is the longest fit or the minimum. */
  lemma BestFit<M>(tokens: M -> nat, buffer: seq<M>, budget: int, n: nat) returns (k: nat)
    requires budget > 0 && n <= |buffer|
    requires TailTokens(tokens, buffer, n) > budget ==> n <= BUFFER_MIN_MESSAGES
    requires n < |buffer| ==> n >= BUFFER_MIN_MESSAGES && TailTokens(tokens, buffer, n + 1) > budget
    ensures IsLongestFit(tokens, buffer, budget, k)
    ensures buffer[|buffer| - n..] == LastOf(buffer, Max(k, BUFFER_MIN_MESSAGES))
  {
    if TailTokens(tokens, buffer, n) <= budget {
      StoppingIsLongest(tokens, buffer, budget, n);
      k := n;
    } else {
      forall j | n < j <= |buffer| ensures TailTokens(tokens, buffer, j) > budget {
        LongerTailsHoldMore(tokens, buffer, n, j);
      }
      k := LongestFitExists(tokens, buffer, budget, n);
    }
  }

  /** The part of prompt assembly that chooses the messages: truncation only when they are over budget. */
  method ChooseMessages<M>(tokens: M -> nat, history: seq<M>, budget: int) returns (kept: seq<M>)
    ensures budget > 0 ==> FitsBest(tokens, LastOf(history, 20), budget, kept)
    ensures budget <= 0 ==> kept == Chosen(tokens, LastOf(history, 20), budget)
  {
    var buffer := LastOf(history, BUFFER_MAX_MESSAGES);
    kept := buffer;
    if TailTokens(tokens, buffer, |buffer|) > budget {
      kept := TruncateBuffer(tokens, buffer, budget);
    } else {
      assert IsLongestFit(tokens, buffer, budget, |buffer|);
    }
  }

  /** What is chosen for a budget that is not positive. */
  function Chosen<M>(tokens: M -> nat, buffer: seq<M>, budget: int): (chosen: seq<M>)
    ensures TailTokens(tokens, buffer, |buffer|) > budget ==> chosen == LastOf(buffer, 5)
    ensures TailTokens(tokens, buffer, |buffer|) <= budget ==> chosen == buffer
  {
    if TailTokens(tokens, buffer, |buffer|) > budget then LastOf(buffer, BUFFER_MIN_MESSAGES) else buffer
  }

  /**
   For a budget that is not positive the choice is the best fit too, unless the budget is exactly zero,
   the messages as a whole do not fit it, and more than five of the newest do, having no tokens.
   */
  lemma BestFitExactlyWhen<M>(tokens: M -> nat, buffer: seq<M>, budget: int, k: nat)
    requires budget <= 0 && IsLongestFit(tokens, buffer, budget, k)
    ensures FitsBest(tokens, buffer, budget, Chosen(tokens, buffer, budget))
            <==> !(budget == 0 && k > BUFFER_MIN_MESSAGES && k < |buffer|)
  {
    var chosen := Chosen(tokens, buffer, budget);
    if k == |buffer| {
      assert chosen == buffer || k <= BUFFER_MIN_MESSAGES;
    }
    assert LastOf(buffer, Max(k, BUFFER_MIN_MESSAGES)) == chosen ==> FitsBest(tokens, buffer, budget, chosen);
    if j: nat :| IsLongestFit(tokens, buffer, budget, j) && chosen == LastOf(buffer, Max(j, BUFFER_MIN_MESSAGES)) {
      LongestFitIsOne(tokens, buffer, budget, j, k);
    }
  }
}
