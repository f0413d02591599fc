/**
 * The package-availability hook: a single static handler slot that, when set,
 * answers every `willBeAvailable` question in place of Symfony's own check.
 */
module Versions {
  import opened Wrappers

  /** `(package, class, parentPackages) => bool`. */
  type Handler = (string, string, seq<string>) -> bool

  /**
   * The class's static state. `fallback` stands for
   * `ContainerBuilder::willBeAvailable`, which consults the installed
   * packages and is not part of this model.
   */
  class InstalledVersions {
    var handler: Option<Handler>
    const fallback: Handler

    /** The slot starts out empty. */
    constructor (fallback: Handler)
      ensures handler == None && this.fallback == fallback
    {
      handler := None;
      this.fallback := fallback;
    }

    /**
     * `setHandler($handler)` overwrites the slot and nothing else; from then
     * on every question goes to the new handler, or, after `setHandler(null)`,
     * to Symfony's check again.
     */
    method SetHandler(h: Option<Handler>)
      modifies this
      ensures handler == h
      ensures forall package, className, parents ::
        WillBeAvailable(package, className, parents)
          == (if h.Some? then h.value(package, className, parents) else fallback(package, className, parents))
    {
      handler := h;
    }

    /** `willBeAvailable($package, $class, $parentPackages)`: the handler if set, with the arguments unchanged. */
    function WillBeAvailable(package: string, className: string, parents: seq<string>): bool
      reads this
    {
      match handler
      case Some(h) => h(package, className, parents)
      case None => fallback(package, className, parents)
    }
  }
}
