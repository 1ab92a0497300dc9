/** Starting and stopping reception, and the registration of the RX task for the pin interrupt. */
module Lifecycle {
  import opened Words
  import opened Driver
  import opened Drain

  /** w5500_driver_register_interrupt_task, which succeeds if no GPIO call fails. After an error the
      handle is as before or NULL, and no handler is installed that was not before; the exception,
      told by `dangling`, is a failure to add the handler, after which the handle names a task that
      will not serve it. A successful registration samples the pin once more, so that a level that
      was there before the edge detection still counts. */
  method RegisterInterruptTask(ctx: Context, task: nat) returns (err: Err, ghost dangling: bool)
    modifies ctx`serviceInstalled, ctx`handlerInstalled, ctx`enabled, ctx`negEdge, ctx`task, ctx`given, ctx`levels,
             ctx`faults
    ensures !ctx.HasPin() ==>
              err.InvalidState? && unchanged(ctx`task, ctx`handlerInstalled, ctx`enabled)
    ensures ctx.HasPin() && task == 0 ==>
              err.InvalidArg? && unchanged(ctx`task, ctx`handlerInstalled, ctx`enabled)
    ensures ctx.HasPin() && task != 0 && ctx.faults == old(ctx.faults) ==> err.Ok?
    ensures ctx.faults <= old(ctx.faults)
    ensures err.Ok? ==>
              && ctx.HasPin() && ctx.task == task && ctx.Registered()
              && ctx.serviceInstalled && ctx.handlerInstalled && ctx.enabled && ctx.negEdge
              && |ctx.levels| == |old(ctx.levels)| + 1
              && ctx.given == old(ctx.given) + (if ctx.levels[|old(ctx.levels)|] == 0 then 1 else 0)
    ensures !err.Ok? ==> ctx.given == old(ctx.given) && ctx.enabled == old(ctx.enabled)
    ensures !err.Ok? && ctx.handlerInstalled ==> old(ctx.handlerInstalled)
    ensures !err.Ok? && !dangling ==> ctx.task == old(ctx.task) || ctx.task == 0
    ensures dangling ==> !err.Ok? && ctx.task == task && !ctx.handlerInstalled && ctx.faults < old(ctx.faults)
  {
    dangling := false;
    if !ctx.initialized || ctx.pinInt < 0 {
      return InvalidState, false;
    }
    if task == 0 {
      return InvalidArg, false;
    }
    if !ctx.serviceInstalled {
      err := ctx.Gpio();
      if err != Ok && err != InvalidState {
        return;
      }
      ctx.serviceInstalled := true;
    }
    ctx.handlerInstalled := false;
    err := ctx.Gpio();
    if err != Ok {
      return;
    }
    ctx.negEdge, ctx.task := true, task;
    err := ctx.Gpio();
    if err != Ok {
      dangling := true;
      return;
    }
    ctx.handlerInstalled := true;
    err := ctx.Gpio();
    if err != Ok {
      ctx.handlerInstalled, ctx.task := false, 0;
      return;
    }
    ctx.enabled := true;
    ctx.NotifyIfPending();
  }

  /** w5500_driver_unregister_interrupt_task: all or nothing. */
  method UnregisterInterruptTask(ctx: Context) returns (err: Err)
    modifies ctx`handlerInstalled, ctx`enabled, ctx`task, ctx`faults
    ensures !ctx.HasPin() ==> err.InvalidState?
    ensures ctx.HasPin() ==> (err.Ok? <==> ctx.faults == old(ctx.faults))
    ensures ctx.faults <= old(ctx.faults)
    ensures err.Ok? ==> ctx.task == 0 && !ctx.handlerInstalled && !ctx.enabled
    ensures !err.Ok? ==> unchanged(ctx`task, ctx`handlerInstalled, ctx`enabled)
  {
    if !ctx.initialized || ctx.pinInt < 0 {
      return InvalidState;
    }
    err := ctx.Gpio();
    if err != Ok {
      return;
    }
    ctx.enabled, ctx.handlerInstalled, ctx.task := false, false, 0;
  }

  /** w5500_driver_disable_interrupt_gpio */
  method DisableInterruptGpio(ctx: Context) returns (err: Err)
    modifies ctx`enabled, ctx`faults
    ensures !ctx.HasPin() ==> err.InvalidState?
    ensures ctx.HasPin() ==> (err.Ok? <==> ctx.faults == old(ctx.faults))
    ensures ctx.enabled == (old(ctx.enabled) && !err.Ok?)
  {
    if !ctx.initialized || ctx.pinInt < 0 {
      return InvalidState;
    }
    err := ctx.Gpio();
    if err == Ok {
      ctx.enabled := false;
    }
  }

  /** w5500_mac_start_rx_task. `task` is the handle of the RX task that xTaskCreate makes, or 0 if
      there is no memory for it. A task is created only if there is none. */
  method StartRxTask(mac: EthMac, task: nat) returns (err: Err, created: bool)
    modifies mac`started, mac`rxTask
    ensures !mac.hasMediator ==> err.InvalidState? && mac.started == old(mac.started) && mac.rxTask == old(mac.rxTask)
    ensures mac.hasMediator ==> (err.Ok? <==> old(mac.rxTask) != 0 || task != 0) && (err.Ok? || err.NoMem?)
    ensures mac.hasMediator ==> (mac.started <==> err.Ok?) && (mac.started <==> mac.rxTask != 0)
    ensures created <==> mac.hasMediator && old(mac.rxTask) == 0 && task != 0
    ensures mac.rxTask == if created then task else old(mac.rxTask)
  {
    created := false;
    if !mac.hasMediator {
      return InvalidState, false;
    }
    if mac.rxTask != 0 {
      mac.started := true;
      return Ok, false;
    }
    mac.started := true;
    if task == 0 {
      mac.started, mac.rxTask := false, 0;
      return NoMem, false;
    }
    mac.rxTask := task;
    return Ok, true;
  }

  /** w5500_mac_stop. It returns at once: the RX task, told of it by a notification, leaves later. */
  method Stop(mac: EthMac, ctx: Context) returns (err: Err)
    modifies mac`started, ctx`enabled, ctx`given, ctx`faults
    ensures err.Ok? && !mac.started
    ensures ctx.enabled ==> old(ctx.enabled)
    ensures old(mac.started) && ctx.HasPin() && ctx.faults == old(ctx.faults) ==> !ctx.enabled
    ensures ctx.given == old(ctx.given) + (if old(mac.started) && mac.rxTask != 0 then 1 else 0)
    ensures !old(mac.started) ==> ctx.enabled == old(ctx.enabled)
  {
    if !mac.started {
      return Ok;
    }
    mac.started := false;
    var ignored := DisableInterruptGpio(ctx);
    if mac.rxTask != 0 {
      ctx.given := ctx.given + 1;
    }
    return Ok;
  }
}
