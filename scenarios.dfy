/** Client-side use of the endpoint contracts: a typical client session against the
    projects endpoint, checked from the contracts alone. */
module Scenarios {
  import opened Wrappers
  import opened Json
  import opened Http
  import opened Auth
  import opened Blobs
  import opened Records
  import opened CollectionHandler

  /** Empty projects collection; create {name:"A"} at time 1 and {name:"B"} at time 2;
      list; rename the first to "A2"; list again; then a DELETE without an id. */
  method ProjectsWalkthrough(password: string)
    requires password != ""
  {
    var pw := Some(password);
    var auth := Some(BearerPrefix + password);
    BearerTokenAccepted(password, pw);
    var store := new CollectionStore(map[]);
    var a: Record := map["name" := Str("A")];
    var b: Record := map["name" := Str("B")];

    var r1 := HandleProjects(store, Request("POST", auth, a, None), pw, 1, NoFault);
    var a1 := a["id" := Str("1")];
    assert Text.NatToString(1) == "1";
    assert r1 == Reply(JsonReply(201, OneRecord(a1)));
    assert Loaded(store.collections, Projects.Key()) == [a1];

    var r2 := HandleProjects(store, Request("POST", auth, b, None), pw, 2, NoFault);
    var b2 := b["id" := Str("2")];
    assert Text.NatToString(2) == "2";
    assert Loaded(store.collections, Projects.Key()) == [a1, b2];

    var list := HandleProjects(store, Request("GET", None, map[], None), pw, 3, NoFault);
    assert list == Reply(JsonReply(200, RecordList([a1, b2])));

    var a2: Record := map["id" := Str("1"), "name" := Str("A2")];
    assert FindIndex([a1, b2], Str("1")) == 0 by { assert HasId(a1, Str("1")); }
    var r3 := HandleProjects(store, Request("PUT", auth, a2, None), pw, 4, NoFault);
    assert r3 == Reply(JsonReply(200, OneRecord(a2)));
    assert Loaded(store.collections, Projects.Key()) == [a2, b2];
    list := HandleProjects(store, Request("GET", None, map[], None), pw, 5, NoFault);
    assert list == Reply(JsonReply(200, RecordList([a2, b2])));

    var before := store.collections;
    var r4 := HandleProjects(store, Request("DELETE", auth, map[], None), pw, 6, NoFault);
    assert r4 == Reply(JsonReply(400, ErrorMessage("ID required")));
    assert store.collections == before;
  }
}
