/** The hypotheses on what the model leaves open can be met. */
module Witnesses {
  import opened Records
  import opened Initialization
  import InitRoot

  /** One way to list a directory. */
  ghost function Listed(entries: set<nat>): (order: seq<nat>)
    ensures Enumerates(order, entries)
    decreases |entries|
  {
    if entries == {} then []
    else
      var first :| first in entries;
      var rest := Listed(entries - {first});
      assert forall x :: x in [first] + rest <==> x in entries;
      [first] + rest
  }

  lemma SomeLibrary()
    ensures exists lib: Lib :: LibOk(lib)
  {
    var lib := Lib(_ => 0, _ => 0, entries => Listed(entries));
    assert LibOk(lib);
  }

  /** No signature verifies over two messages. */
  ghost predicate Binding(c: Crypto) {
    forall key: nat, a: Root, b: Root :: c.verifies(key, a) && c.verifies(key, b) && a.signature == b.signature ==>
          a.tbs == b.tbs
  }

  /** A key that is willing to sign, under a scheme whose signatures are good for one message
      only. */
  lemma SomeKeyStore(key: nat)
    ensures exists c: Crypto, signer: nat -> RootSigner :: Binding(c) && InitRoot.Willing(c, key, signer)
  {
    var c := Crypto((k, serial, time, days) => 0, k => 0, k => 0, (k: nat, root: Root) => root.signature == root.tbs,
          blob => 0);
    var signer: nat -> RootSigner := (tbs: nat) => SignsRoot(tbs);
    assert Binding(c) && InitRoot.Willing(c, key, signer);
  }
}
