/** The Redis keys of cached access answers. */
module AccessKeys {

  type UserId = string
  type ProjectId = string
  type TrackId = string

  /** What a cached value is about: one user and one project or track, or all of a user's. */
  datatype Subject =
    | Pair(u: UserId, p: ProjectId)
    | TrackPair(u: UserId, t: TrackId)
    | ProjectList(u: UserId)
    | TrackList(u: UserId)

  /** Track answers are stored under the keys of project answers. */
  function KeyOf(s: Subject): string {
    match s
    case Pair(u, p) => "user:" + u + ":access:project:" + p
    case TrackPair(u, t) => "user:" + u + ":access:project:" + t
    case ProjectList(u) => "user:" + u + ":project_access"
    case TrackList(u) => "user:" + u + ":track_access"
  }

  /** The answer of the other route for the same id. */
  function Other(s: Subject): Subject {
    match s
    case Pair(u, p) => TrackPair(u, p)
    case TrackPair(u, t) => Pair(u, t)
    case _ => s
  }

  /** User ids are UUIDs, which have no colon. */
  predicate WellFormed(s: Subject) {
    ':' !in s.u
  }

  function Tail(s: Subject): string {
    match s
    case Pair(_, p) => "access:project:" + p
    case TrackPair(_, t) => "access:project:" + t
    case ProjectList(_) => "project_access"
    case TrackList(_) => "track_access"
  }

  lemma KeyShape(s: Subject)
    ensures KeyOf(s) == "user:" + (s.u + ":" + Tail(s))
  {
    match s
    case Pair(u, p) => assert "user:" + u + ":access:project:" + p == "user:" + (u + ":" + ("access:project:" + p));
    case TrackPair(u, t) => assert "user:" + u + ":access:project:" + t == "user:" + (u + ":" + ("access:project:" + t));
    case ProjectList(u) => assert "user:" + u + ":project_access" == "user:" + (u + ":" + "project_access");
    case TrackList(u) => assert "user:" + u + ":track_access" == "user:" + (u + ":" + "track_access");
  }

  lemma FirstColon(a: string, x: string, b: string, y: string)
    requires ':' !in a && ':' !in b && a + ":" + x == b + ":" + y
    ensures a == b && x == y
  {
    var s := a + ":" + x;
    assert s[|a|] == ':' && s[|b|] == ':';
    assert forall i :: 0 <= i < |a| ==> s[i] == a[i] && s[i] != ':';
    assert forall i :: 0 <= i < |b| ==> s[i] == b[i] && s[i] != ':';
    assert a == s[..|a|] && b == s[..|b|];
    assert x == s[|a| + 1..] && y == s[|b| + 1..];
  }

  lemma TailsDiffer(s: Subject, t: Subject)
    requires s.u == t.u && Tail(s) == Tail(t)
    ensures t == s || t == Other(s)
  {
    var x, y := Tail(s), Tail(t);
    assert x[0] == if s.ProjectList? then 'p' else if s.TrackList? then 't' else 'a';
    assert y[0] == if t.ProjectList? then 'p' else if t.TrackList? then 't' else 'a';
    if x[0] == 'a' {
      assert x[15..] == if s.Pair? then s.p else s.t;
      assert y[15..] == if t.Pair? then t.p else t.t;
    }
  }

  /** Two subjects share a key exactly when they are the same, or the same id on the two routes. */
  lemma KeysAreShared(s: Subject, t: Subject)
    requires WellFormed(s) && WellFormed(t)
    ensures KeyOf(s) == KeyOf(t) <==> t == s || t == Other(s)
  {
    if KeyOf(s) == KeyOf(t) {
      KeyShape(s);
      KeyShape(t);
      var a, b := s.u + ":" + Tail(s), t.u + ":" + Tail(t);
      assert a == KeyOf(s)[5..] && b == KeyOf(t)[5..];
      FirstColon(s.u, Tail(s), t.u, Tail(t));
      TailsDiffer(s, t);
    }
  }

  /** With a colon in a user id, two users' answers can share a key. */
  lemma ColonsMakeKeysCollide()
    ensures exists s: Subject, t: Subject :: s.u != t.u && KeyOf(s) == KeyOf(t)
  {
    var s, t := Pair("a", "x:access:project:y"), Pair("a:access:project:x", "y");
    assert KeyOf(s) == KeyOf(t);
  }
}
