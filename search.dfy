/** The member-list search box: a member is listed when the query occurs,
    ignoring case, in their name or address, or occurs verbatim in their
    phone number. */
module Search {
  import opened Records

  /** String.prototype.toLowerCase, restricted to the ASCII letters. */
  function LowerChar(c: char): char {
    if 'A' <= c <= 'Z' then (c as int - 'A' as int + 'a' as int) as char else c
  }

  function ToLower(s: string): (r: string)
    ensures |r| == |s|
    ensures forall i :: 0 <= i < |r| ==> !('A' <= r[i] <= 'Z')
    ensures forall i :: 0 <= i < |s| && 'A' <= s[i] <= 'Z' ==> r[i] as int == s[i] as int + 32
    ensures forall i :: 0 <= i < |s| && !('A' <= s[i] <= 'Z') ==> r[i] == s[i]
  {
    seq(|s|, i requires 0 <= i < |s| => LowerChar(s[i]))
  }

  predicate OccursAt(s: string, t: string, i: int) {
    0 <= i && i + |t| <= |s| && s[i..i + |t|] == t
  }

  /** String.prototype.includes: t occurs somewhere in s. */
  predicate Contains(s: string, t: string) {
    exists i :: 0 <= i <= |s| - |t| && OccursAt(s, t, i)
  }

  predicate Matches(m: Member, query: string): (kept: bool)
    ensures query == [] ==> kept
  {
    assert query == [] ==> OccursAt(m.phone, query, 0);
    Contains(ToLower(m.name), ToLower(query))
    || Contains(ToLower(m.address), ToLower(query))
    || Contains(m.phone, query)
  }

  /** The members the search keeps, in list order (Array.prototype.filter). */
  function FilteredMembers(ms: seq<Member>, query: string): (r: seq<Member>)
    ensures |r| <= |ms|
    ensures forall m :: m in r <==> m in ms && Matches(m, query)
  {
    if ms == [] then []
    else
      FilteredMembers(ms[..|ms| - 1], query)
      + (if Matches(ms[|ms| - 1], query) then [ms[|ms| - 1]] else [])
  }

  // ---------------------------------------------------------------------

  /** The search keeps the list order: searching a concatenation searches
      each part and concatenates the results. */
  lemma {:induction false} SearchPreservesOrder(a: seq<Member>, b: seq<Member>, query: string)
    ensures FilteredMembers(a + b, query) == FilteredMembers(a, query) + FilteredMembers(b, query)
  {
    if b == [] {
      assert a + b == a;
    } else {
      var init := b[..|b| - 1];
      assert (a + b)[..|a + b| - 1] == a + init;
      SearchPreservesOrder(a, init, query);
    }
  }

  /** A list all of whose members match is listed in full. */
  lemma {:induction false} SearchKeepsAllMatching(ms: seq<Member>, query: string)
    requires forall i :: 0 <= i < |ms| ==> Matches(ms[i], query)
    ensures FilteredMembers(ms, query) == ms
  {
    if ms != [] {
      var init, last := ms[..|ms| - 1], ms[|ms| - 1];
      assert forall i :: 0 <= i < |init| ==> init[i] == ms[i];
      SearchKeepsAllMatching(init, query);
      assert Matches(last, query);
      assert FilteredMembers(ms, query) == init + [last];
      assert init + [last] == ms;
    }
  }

  /** The empty query, the search box's initial state, lists every member. */
  lemma EmptyQueryKeepsAll(ms: seq<Member>)
    ensures FilteredMembers(ms, "") == ms
  {
    forall i | 0 <= i < |ms| ensures Matches(ms[i], "") {
      assert OccursAt(ms[i].phone, "", 0);
    }
    SearchKeepsAllMatching(ms, "");
  }

  /** Lower-casing twice is lower-casing once: the query and the fields are
      compared in one normal form. */
  lemma ToLowerIdempotent(s: string)
    ensures ToLower(ToLower(s)) == ToLower(s)
  {
  }

  /** Searching the result again with the same query changes nothing. */
  lemma SearchIdempotent(ms: seq<Member>, query: string)
    ensures FilteredMembers(FilteredMembers(ms, query), query) == FilteredMembers(ms, query)
  {
    var r := FilteredMembers(ms, query);
    forall i | 0 <= i < |r| ensures Matches(r[i], query) {
      assert r[i] in r;
    }
    SearchKeepsAllMatching(r, query);
  }
}
