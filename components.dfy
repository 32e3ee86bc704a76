/** Model of core/component.py: the enable / suppress / close flags that
  * every component carries. Logging is left out. */
module Components {

  class Component {
    var enabled: bool
    var suppressed: bool
    var closed: bool

    /** A closed component is never enabled: `close` disables it and
      * `enable` refuses once it is closed. */
    predicate Valid()
      reads this
    {
      closed ==> !enabled
    }

    /** The constructor with explicit `suppressed` and `enabled` arguments. */
    constructor (suppressed: bool, enabled: bool)
      ensures Valid()
      ensures this.suppressed == suppressed && this.enabled == enabled && !closed
    {
      this.suppressed := suppressed;
      this.enabled := enabled;
      closed := false;
    }

    /** The default constructor: suppressed and disabled. */
    constructor Default()
      ensures Valid()
      ensures suppressed && !enabled && !closed
    {
      suppressed := true;
      enabled := false;
      closed := false;
    }

    /** Enables the component unless it is closed, in which case nothing
      * changes. */
    method Enable()
      requires Valid()
      modifies this
      ensures Valid()
      ensures enabled == !old(closed) && closed == old(closed)
      ensures suppressed == old(suppressed)
    {
      if !closed {
        enabled := true;
      }
    }

    method Disable()
      requires Valid()
      modifies this
      ensures Valid()
      ensures !enabled && closed == old(closed) && suppressed == old(suppressed)
    {
      if enabled {
        enabled := false;
      }
    }

    /** Release and suppress change only the suppressed flag. */
    method Release()
      requires Valid()
      modifies this
      ensures Valid()
      ensures !suppressed && enabled == old(enabled) && closed == old(closed)
    {
      suppressed := false;
    }

    method Suppress()
      requires Valid()
      modifies this
      ensures Valid()
      ensures suppressed && enabled == old(enabled) && closed == old(closed)
    {
      suppressed := true;
    }

    /** Close disables and sets closed; a second close changes nothing. */
    method Close()
      requires Valid()
      modifies this
      ensures Valid()
      ensures closed && !enabled && suppressed == old(suppressed)
      ensures old(closed) ==> enabled == old(enabled)
    {
      if !closed {
        Disable();
        closed := true;
      }
    }
  }
}
