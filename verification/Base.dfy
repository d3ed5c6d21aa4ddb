/** Small datatypes shared by every part of the model. */
module Base {

  datatype Option<+T> = None | Some(value: T)

  /** What a fallible outside operation did: `Done`, or failed with a cause. A failed
      operation has changed nothing. */
  datatype Outcome = Done | Failed(why: string)

  /** The error chain `context: cause`, as anyhow prints it with `{:#}`. */
  function InContext(context: string, o: Outcome): Outcome {
    match o
    case Done => Done
    case Failed(why) => Failed(context + ": " + why)
  }

  /** What a command printed, or why it could not be run. */
  datatype Output = Out(text: string) | Broke(why: string)

  ghost predicate Distinct<T>(s: seq<T>) {
    forall i, j :: 0 <= i < j < |s| ==> s[i] != s[j]
  }

  /** Every call made for `n` fails, when call `i` is for `s[i]` and those in `fails` fail. */
  ghost predicate AllFail<T>(s: seq<T>, fails: set<nat>, n: T) {
    forall i: nat | i < |s| && s[i] == n :: i in fails
  }

  lemma Regroup<T>(a: seq<T>, b: seq<T>, c: seq<T>)
    ensures (a + b) + c == a + (b + c)
  {
  }

  lemma Unlisted<T(!new)>(s: seq<T>, fails: set<nat>)
    ensures forall n: T :: n !in s ==> AllFail(s, fails, n)
  {
  }

  lemma AllFailOneMore<T>(s: seq<T>, fails: set<nat>, k: nat, n: T)
    requires 0 < k <= |s|
    ensures AllFail(s[..k], fails, n) <==> AllFail(s[..k - 1], fails, n) && (n == s[k - 1] ==> k - 1 in fails)
  {
    if AllFail(s[..k], fails, n) {
      assert forall i: nat | i < k - 1 :: s[..k - 1][i] == s[..k][i];
      assert s[..k][k - 1] == s[k - 1];
    }
  }

  lemma NoneFail<T(!new)>(s: seq<T>)
    ensures forall n: T :: n in s ==> !AllFail(s, {}, n)
  {
    forall n: T | n in s ensures !AllFail(s, {}, n) {
      var i: nat :| i < |s| && s[i] == n;
    }
  }

  function Last<T>(s: seq<T>): T
    requires s != []
  {
    s[|s| - 1]
  }
}
