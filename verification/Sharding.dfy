/** The hub-side mirror of the frontends' sharding rule. */
module Sharding {

  /** Shard 1 for a first hex digit in [0-9a-c], shard 2 for everything else. */
  function GetShard(cgId: string): int {
    if cgId == "" then 2
    else if '0' <= cgId[0] <= '9' || 'a' <= cgId[0] <= 'c' then 1
    else 2
  }

  /** The shards by first character. */
  lemma ShardByFirstCharacter(cgId: string)
    ensures GetShard(cgId) == 1 <==> cgId != "" && cgId[0] in "0123456789abc"
    ensures GetShard(cgId) != 1 ==> GetShard(cgId) == 2
  {
    if cgId != "" {
      var c := cgId[0];
      assert "0123456789abc"[..] == "0123456789abc";
      if '0' <= c <= '9' {
        assert "0123456789abc"[c as int - '0' as int] == c;
      } else if 'a' <= c <= 'c' {
        assert "0123456789abc"[10 + (c as int - 'a' as int)] == c;
      }
    }
  }
}
