/** Concrete conversations with the bot, derived from the general lemmas. */
module Scenarios {
  import opened Text
  import opened Handler
  import opened MessageProperties

  /** "Ping" in a chat message is answered "pong"; the same text in a group
      message is ignored. */
  lemma PingExample(env: Env)
    ensures Handle("chat", "Ping", env) == Reply("pong")
    ensures Handle("groupchat", "ping", env) == NoReply
  {
    assert "" + "Ping" + "" == "Ping";
    PingAnyCase("chat", "", "Ping", "", env);
  }

  /** An unknown word gets no reply. */
  lemma UnknownExample(env: Env)
    ensures Handle("chat", "foobar", env) == NoReply
  {
    assert "" + "foobar" + "" == "foobar";
    assert IsWord("foobar");
    forall k | k in Keywords ensures !CaseVariant("foobar", k) {
      assert |k| < 6;
    }
    UnknownSilent("chat", "", "foobar", "", env);
  }
}
