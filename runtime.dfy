/**
 * `Runtime`: the object the bundle hands to RoadRunner. It holds the worker
 * factory and the configured workers, counts the workers and starts the
 * factory.
 */
module Runtime {

  /** The call `run()` makes on the factory. */
  datatype FactoryCall = FactoryRun(factory: string)

  class Runtime {
    /** The worker factory service and the workers, by service id; readonly after construction. */
    const factory: string
    const workers: seq<string>

    constructor (factory: string, workers: seq<string>)
      ensures this.factory == factory && this.workers == workers
      ensures Count() == |workers|
    {
      this.factory := factory;
      this.workers := workers;
    }

    /** `count()`: PHP's `count($this->workers)`. */
    function Count(): nat {
      |workers|
    }

    /** `run()`: one `run()` on the factory and nothing else; the worker count is untouched. */
    method Run() returns (calls: seq<FactoryCall>)
      ensures calls == [FactoryRun(factory)]
      ensures Count() == |workers|
    {
      calls := [FactoryRun(factory)];
    }
  }
}
