/** How a group's culture decides its replication: by push and frequent sync, or by rare sync alone. */
module Cultures {
  import opened Era

  datatype Strategy = EagerPush | Passive

  /** The strategy of a culture's eagerness; an unknown word is taken as eager. */
  function StrategyOf(eagerness: string): Strategy {
    match eagerness
    case "chatty" => EagerPush
    case "moderate" => EagerPush
    case "taciturn" => Passive
    case _ => EagerPush
  }

  /** The time between two syncs of the group; the configuration gives the one for taciturn groups. */
  function SyncInterval(eagerness: string, taciturn: nat): nat {
    match StrategyOf(eagerness)
    case EagerPush => EAGER_PUSH_INTERVAL
    case Passive => taciturn
  }

  /** Taciturn groups alone keep quiet: chatty, moderate and unknown ones all push. */
  lemma OnlyTaciturnIsPassive(eagerness: string)
    ensures StrategyOf(eagerness) == Passive <==> eagerness == "taciturn"
    ensures StrategyOf("chatty") == StrategyOf("moderate") == StrategyOf("") == EagerPush
  {
  }

  /** Taciturn groups sync at the configured interval, all others once a minute. */
  lemma SyncIntervalIs(eagerness: string, taciturn: nat)
    ensures SyncInterval(eagerness, taciturn) == if eagerness == "taciturn" then taciturn else 60 * SECOND
  {
  }
}
