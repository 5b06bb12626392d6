/** Names shared by the coordination host and its agents. */
module Protocol {

  datatype Option<+T> = None | Some(value: T) {
    function GetOr(default: T): T {
      if Some? then value else default
    }
  }

  const MAX_SAFE_INTEGER := 0x1F_FFFF_FFFF_FFFF

  datatype Member = Member(memberId: string, deviceId: string)

  datatype ScopeKind = File | Folder | Glob

  datatype LockMode = Soft | CoordinationRequired | Hard

  datatype EntryType = LockEntry | PresenceEntry | IntentEntry | CreationEntry

  datatype Op = Added | Removed

  datatype IntentRef = IntentRef(intentId: string, description: string)

  /** A coordination update before it receives its Event_Revision. */
  datatype Change = Change(entryType: EntryType, op: Op, path: string, member: Member, intent: Option<IntentRef>)

  /** A broadcast coordination update. */
  datatype Update = Update(change: Change, eventRevision: nat)

  predicate IsIntentEntry(t: EntryType) {
    t == IntentEntry || t == CreationEntry
  }

  /** JavaScript's `<` on strings: code unit by code unit, a proper prefix first. */
  predicate TextLess(a: string, b: string) {
    b != [] && (a == [] || a[0] < b[0] || (a[0] == b[0] && TextLess(a[1..], b[1..])))
  }

  lemma {:induction false} TextLessTotal(a: string, b: string)
    ensures a == b || TextLess(a, b) || TextLess(b, a)
    ensures !(TextLess(a, b) && TextLess(b, a))
    ensures !TextLess(a, a)
  {
    if a != [] && b != [] {
      TextLessTotal(a[1..], b[1..]);
      assert a == [a[0]] + a[1..] && b == [b[0]] + b[1..];
    }
    if a != [] { TextLessTotal(a[1..], a[1..]); }
  }

  lemma {:induction false} TextLessTransitive(a: string, b: string, c: string)
    requires TextLess(a, b) && TextLess(b, c)
    ensures TextLess(a, c)
  {
    if a != [] && a[0] == b[0] && b[0] == c[0] {
      TextLessTransitive(a[1..], b[1..], c[1..]);
    }
  }

  /** `a` comes before `b` at place `n`: the texts agree up to there, and then `a` ends or is lower. */
  predicate LessAt(a: string, b: string, n: int) {
    0 <= n <= |a| && n < |b| && a[..n] == b[..n] && (n == |a| || a[n] < b[n])
  }

  lemma {:induction false} TextLessIff(a: string, b: string)
    ensures TextLess(a, b) <==> exists n :: LessAt(a, b, n)
  {
    if a != [] && b != [] && a[0] == b[0] {
      TextLessIff(a[1..], b[1..]);
      if n :| LessAt(a[1..], b[1..], n) {
        assert a[..n + 1] == [a[0]] + a[1..][..n] && b[..n + 1] == [b[0]] + b[1..][..n];
        assert LessAt(a, b, n + 1);
      }
      if n :| LessAt(a, b, n) {
        assert n > 0;
        assert a[1..][..n - 1] == a[..n][1..] && b[1..][..n - 1] == b[..n][1..];
        assert LessAt(a[1..], b[1..], n - 1);
      }
    } else {
      assert b != [] && (a == [] || a[0] < b[0]) ==> LessAt(a, b, 0);
      forall n | LessAt(a, b, n) ensures n == 0 {
        assert forall i :: 0 <= i < n ==> a[i] == a[..n][i] && b[i] == b[..n][i];
      }
    }
  }
}
