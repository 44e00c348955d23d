/** Player actions, the two Hold'em player models and the factory that makes them by name. */
module PlayerModels {
  import Holdem
  import opened Poker

  /** What a player does when asked to act; numbered from 0 in this order. */
  datatype PlayerAction = UNSPECIFIED | FOLD | CHECK | RAISE | RAISE_ALL_IN

  /** The integer value of an action. */
  function ActionValue(a: PlayerAction): (v: nat)
    ensures v <= 4 && (v == 0 <==> a == UNSPECIFIED)
  {
    match a
    case UNSPECIFIED => 0
    case FOLD => 1
    case CHECK => 2
    case RAISE => 3
    case RAISE_ALL_IN => 4
  }

  /** An operation that either yields a value or fails with a message (a thrown exception). */
  datatype Result<T> = Ok(value: T) | Err(message: string)

  /** The player models the factory knows. */
  datatype PlayerModel = Showdown | MillerTight

  /** The registered name of each model. */
  function ModelName(m: PlayerModel): (name: string)
    ensures name != ""
  {
    match m
    case Showdown => "showdown"
    case MillerTight => "miller_tight"
  }

  const UNRECOGNIZED_MODEL: string := "Unrecognized player model: "

  /** The factory: the model whose name equals the argument exactly, otherwise an error
      naming the argument. */
  function Create(name: string): (r: Result<PlayerModel>)
    ensures r.Ok? ==> ModelName(r.value) == name
    ensures r.Err? ==> r.message == UNRECOGNIZED_MODEL + name
  {
    if name == ModelName(Showdown) then Ok(Showdown)
    else if name == ModelName(MillerTight) then Ok(MillerTight)
    else Err(UNRECOGNIZED_MODEL + name)
  }

  /** Each model is created from its own name. */
  lemma CreateByName(m: PlayerModel)
    ensures Create(ModelName(m)) == Ok(m)
  {
  }

  /** The factory fails exactly on names that no model has. */
  lemma CreateFailsOnUnknown(name: string)
    ensures Create(name).Err? <==> forall m: PlayerModel :: ModelName(m) != name
  {
    if Create(name).Ok? {
      assert ModelName(Create(name).value) == name;
    }
  }

  /** Names are compared whole: a model's name with anything appended or prepended, or
      with its case changed, is unknown. */
  lemma CreateIsExact(m: PlayerModel, extra: string)
    requires extra != ""
    ensures Create(ModelName(m) + extra).Err? && Create(extra + ModelName(m)).Err?
    ensures Create("Showdown").Err? && Create("MILLER_TIGHT").Err?
  {
    var n := ModelName(m);
    var long, front := n + extra, extra + n;
    assert |long| > |n| && long[0] == n[0];
    assert |front| > |n| && front[|front| - 1] == n[|n| - 1];
  }

  /** Both models check whatever the table, round, seat and player: they read and change
      nothing. */
  function Act(m: PlayerModel, table: Table, round: Holdem.Round, position: int, player: Player): (a: PlayerAction)
    ensures a == CHECK
  {
    match m
    case Showdown => CHECK
    case MillerTight => CHECK
  }
}
