/** Types and sequence helpers shared by the dashboard's managers. */
module Common {

  /** An optional value; `None` stands for the source's `null`. */
  datatype Option<T> = None | Some(value: T)

  /** Identities are the opaque strings that `crypto.randomUUID` produces. */
  type Id = string

  /** A calendar day key, counted in whole days: the day after `d` is `d + 1`. */
  type Day = int

  /** The two kinds of timer session; focus-log entries are always tagged `Focus`. */
  datatype SessionType = Focus | Break

  /** The `reduce((a, b) => a + b, 0)` idiom: a left fold, so it peels the last element. */
  function Sum(s: seq<nat>): nat
  {
    if s == [] then 0 else Sum(s[..|s| - 1]) + s[|s| - 1]
  }

  /**
   * `s.filter((x) => key(x) !== id)`: drop every element whose key is `id`,
   * keeping the others in their order.
   */
  function RemoveKey<T(==,!new)>(s: seq<T>, key: T -> Id, id: Id): (r: seq<T>)
    ensures |r| <= |s|
    ensures forall x :: x in r <==> x in s && key(x) != id
  {
    if s == [] then []
    else if key(s[0]) == id then RemoveKey(s[1..], key, id)
    else [s[0]] + RemoveKey(s[1..], key, id)
  }

  /** Filtering distributes over concatenation: the survivors keep their relative order. */
  lemma {:induction false} RemoveKeyAppend<T(!new)>(a: seq<T>, b: seq<T>, key: T -> Id, id: Id)
    ensures RemoveKey(a + b, key, id) == RemoveKey(a, key, id) + RemoveKey(b, key, id)
  {
    if a == [] {
      assert a + b == b;
    } else {
      assert (a + b)[0] == a[0] && (a + b)[1..] == a[1..] + b;
      RemoveKeyAppend(a[1..], b, key, id);
    }
  }

  /** Filtering out an id nobody carries changes nothing. */
  lemma {:induction false} RemoveKeyAbsent<T(!new)>(s: seq<T>, key: T -> Id, id: Id)
    requires forall x :: x in s ==> key(x) != id
    ensures RemoveKey(s, key, id) == s
  {
    if s != [] {
      assert forall x :: x in s[1..] ==> x in s;
      RemoveKeyAbsent(s[1..], key, id);
    }
  }

  /** Filtering twice by the same id is filtering once. */
  lemma RemoveKeyIdempotent<T(!new)>(s: seq<T>, key: T -> Id, id: Id)
    ensures RemoveKey(RemoveKey(s, key, id), key, id) == RemoveKey(s, key, id)
  {
    RemoveKeyAbsent(RemoveKey(s, key, id), key, id);
  }
}
