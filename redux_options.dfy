/** The options bag a Store is configured with (Blazor.Server.Redux/ReduxOptions.cs). */
module Options {
  import opened Wrappers

  /** History depth used when the caller does not change it. */
  const DefaultMaxHistoricalRecords: nat := 20

  /**
   * A mutable bag of settings. Callers change the fields directly after
   * construction (through a configure callback in the source).
   */
  class ReduxOptions<S, A> {
    /** How many past states to keep besides the current one; None turns record keeping off. */
    var maxHistoricalRecords: Option<nat>
    /** Builds the action dispatched when the URI changes; None selects the built-in location-change action. */
    var locationActionCreator: Option<string -> A>
    /** When true the store never synchronises with the URI. */
    var suppressLocationSynchronization: bool
    /** Extracts the location a state wants to show; None selects the last reported URI. */
    var getLocation: Option<S -> Option<string>>

    constructor ()
      ensures maxHistoricalRecords == Some(DefaultMaxHistoricalRecords)
      ensures locationActionCreator.None?
      ensures !suppressLocationSynchronization
      ensures getLocation.None?
    {
      maxHistoricalRecords := Some(DefaultMaxHistoricalRecords);
      locationActionCreator := None;
      suppressLocationSynchronization := false;
      getLocation := None;
    }
  }
}
