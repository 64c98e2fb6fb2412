/** The public facade, reduced to its one piece of logic: a disconnect kills the connection and then flushes every subscription. */
module QrwcSvelte {
  import CM = ConnectionManager
  import CS = ControlSubscriber

  class QrwcSvelte {
    const manager: CM.ConnectionManager
    const subscriber: CS.ControlSubscriber

    constructor (options: CM.ConnectionOptions)
      ensures fresh(manager) && fresh(subscriber)
      ensures manager.options == options && manager.Model() == CM.AfterConnect(CM.Initial(), options)
      ensures subscriber.Model() == CS.EmptyRegistry() && subscriber.Valid()
    {
      manager := new CM.ConnectionManager(options);
      subscriber := new CS.ControlSubscriber();
    }

    /** disconnect: the kill switch, then a flush that keeps the id counter. */
    method Disconnect()
      modifies manager, subscriber
      ensures manager.Model() == CM.AfterKill(old(manager.Model()))
      ensures subscriber.Model() == CS.Flush(old(subscriber.Model())) && subscriber.Valid()
    {
      manager.KillConnection();
      subscriber.FlushSubscriptions();
    }
  }
}
