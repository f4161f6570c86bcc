# ESP32 connected-device firmware, modelled in Dafny

This project models the control logic of a small ESP32 firmware. The device
joins a Wi-Fi network from a stored list of credentials, talks to an MQTT
broker, obeys remote commands (LED toggles, LCD text, Wi-Fi scans, network
switch, over-the-air update), and falls back to an access point with a
provisioning web page when it has nothing to join. Two button gestures on one
pin, a five-second press and a triple click, erase the stored networks or
re-enter provisioning.

The model has one module per C file of `main/`, plus `Esp` (error codes and
C division) and `Topics` (the MQTT topic strings):

- `WifiModel` / `WifiManager`: the Wi-Fi manager `wfm_t`. `WifiModel` holds the
  context as a value and specifies every operation and event handler as a
  function on it; `WifiManager.Manager` is a class with the same fields whose
  methods are proved to end in the state those functions give. The vendor
  driver is an environment: each call that may fail is named in a set of
  failing calls, and each blocking wait takes its outcome (connected, failed
  with a reason, timeout) from a queue supplied by the caller. Spawning the
  reconnect task is recorded, not run. `WifiScan` is the scan deduplication.
- `MqttModel` / `MqttManager`: the MQTT manager `mqm_t` in the same style, with
  the client's effects (connect, subscribe, publish, stop) recorded in order.
- `NvsMemory`: the stored credential list, the flash blob being one optional
  value.
- `WebApplication`, `MainApp`: the command handlers and `app_main`. Calls into
  the other modules are recorded as effects on a world value; the boot and the
  polling loop are methods proved against functions that give that world.
- `Interrupts`, `LedsDriver`, `LcdDriver`, `HardwareLayer`, `HttpServer`,
  `MqttCallbacks`, `WifiCallbacks`, `Util`: the button gesture recogniser,
  the LED command queue, the HD44780 pin protocol and word-wrap layout, the
  GPIO register stores, the provisioning form parse, the status-to-LED
  mappings and the string helpers.

Where the code does something its own documentation does not say, the model
follows the code:

- `wfm_reconnect` runs `MAX_RECONNECT_ATTEMPTS` (5) rounds; the configured
  `max_reconnect_attempts` is never read.
- `wfm_change_network` reports the disconnect reason as read after the wait on
  the previous network, not the one seen on the new network.
- `wfm_stop_ap` does nothing after `wfm_start_ap`, and `on_mqtt_status` lets
  only `MQM_NONE` through (see Findings).
- A failed OTA update publishes the failure and then shows "new version installed"
  on the LCD (main/web_application.c:451-453).

## Model

| member | source | states |
|---|---|---|
| Util.ReplacePlusWithSpace | main/util.c:81-87 | every `+` before the terminator becomes a space, in place; the terminator and everything after it are untouched; the decoded buffer holds the decoded C string |
| Util.PlusToSpaceMeaning | main/util.c:81-87 | the decoding leaves no `+`, keeps every other character at its place, and keeps the length |
| Util.DecodedBufferIdempotent | main/util.c:81-87 | decoding an already decoded buffer changes nothing |
| Util.CStrOfDecoded | main/util.c:81-87 | the terminator stays where it was, so the C string of the decoded buffer is the decoding of the original C string |
| Util.CStrOfTerminated | main/util.c:101-111 | a buffer whose first NUL is at `n` holds exactly its first `n` characters as its C string |
| Util.StrlcpyHoldsBoundedCopy | main/util.c:110 | after `strlcpy` the destination's C string is the source cut to `size - 1` characters |
| Util.SStrcpy | main/util.c:101-111 | no effect for a NULL or zero-sized destination; an empty string for a NULL source; otherwise the bounded copy, terminated |
| HardwareLayer.ConfigWordFields | main/hardware_layer.c:158-167 | every field of the configuration word reads back: the synchronisation bit 0, the interrupt type in bits 7-9, interrupt enable in bit 13, NMI enable in bit 14, and no other bit set |
| HardwareLayer.ConfigWordInjective | main/hardware_layer.c:158-167 | two configurations give the same word exactly when interrupt enable, NMI enable and interrupt type all agree |
| HardwareLayer.MaskSelectsPin | main/hardware_layer.c:63-67 | the mask of a pin below 32 has that pin's bit set and no other |
| HardwareLayer.Registers.WriteRegister | main/hardware_layer.c:216-219 | one store of the word at the address, appended to the stores made so far |
| HardwareLayer.Registers.SetOutputDirection | main/hardware_layer.c:63-67 | the pin's mask stored into the output-enable-set register |
| HardwareLayer.Registers.SetInputDirection | main/hardware_layer.c:80-84 | the pin's mask stored into the output-enable-clear register |
| HardwareLayer.Registers.SetOutputLevel | main/hardware_layer.c:102-113 | LOW stores the mask into the output-clear register, any other level into the output-set register |
| HardwareLayer.Registers.ConfigGpio | main/hardware_layer.c:140-171 | exactly one store, of the interrupt configuration word, into the pin's configuration register; the pull and drive-strength word is never stored |
| HardwareLayer.Registers.InitWifiResetButton | main/hardware_layer.c:189-201 | the pin configured for interrupt and NMI on both edges, made an input, and its pending interrupt cleared, in that order |
| NvsMemory.IndexOf | main/nvs_memory.c:152-157 | the first stored entry whose SSID equals the given one, by `strcmp`, or none |
| NvsMemory.UpsertList | main/nvs_memory.c:143-170 | the list as `add_wifi_creds_to_NVS_memory` writes it back |
| NvsMemory.RemoveList | main/nvs_memory.c:187-208 | the list as `remove_wifi_creds_from_NVS_memory` writes it back |
| NvsMemory.UpsertExistingReplacesPassword | main/nvs_memory.c:152-157 | a stored SSID keeps its place and every other entry, and only its password changes, to the bounded copy of the new one |
| NvsMemory.UpsertNewAppends | main/nvs_memory.c:160-164 | a new SSID is appended after the existing entries, with the count up by one, while fewer than fifteen are stored |
| NvsMemory.UpsertFullIgnored | main/nvs_memory.c:160-164 | a new SSID is silently dropped once fifteen entries are stored |
| NvsMemory.UpsertThenFound | main/nvs_memory.c:143-170 | after an upsert that was not dropped, a lookup of an SSID that fits its field finds it, with the new password |
| NvsMemory.UpsertKeepsNamesUnique | main/nvs_memory.c:143-170 | on a list with distinct names, upserting an SSID that fits its field keeps the names distinct |
| NvsMemory.RemoveAbsentUnchanged | main/nvs_memory.c:195-203 | removing an SSID that is not stored leaves the list as it was |
| NvsMemory.RemoveFoundSwapsWithLast | main/nvs_memory.c:195-203 | removing a stored SSID drops exactly its first entry: the count goes down by one, the last entry fills the gap, the freed slot is zeroed, and every other entry stays in place |
| NvsMemory.RemoveKeepsOthers | main/nvs_memory.c:195-203 | the stored entries lose exactly one copy of the removed one, as multisets |
| NvsMemory.SwapOutMultiset | main/nvs_memory.c:198-200 | overwriting slot `i` with the last entry and dropping the last slot removes exactly one copy of the entry at `i` |
| NvsMemory.RemoveThenAbsent | main/nvs_memory.c:187-208 | on a list with distinct names, a removed SSID can no longer be found |
| NvsMemory.NvsStore.Load | main/nvs_memory.c:102-125 | a NULL output fails; a missing key gives the empty list and success; any other read error gives the empty list and failure; otherwise the stored list; the list returned is always a well-formed fifteen-slot list |
| NvsMemory.NvsStore.AddCreds | main/nvs_memory.c:143-170 | a NULL or empty SSID changes nothing; otherwise the stored list becomes the upsert of the loaded one (empty after a failed read) |
| NvsMemory.NvsStore.RemoveCreds | main/nvs_memory.c:187-208 | a NULL or empty SSID changes nothing; otherwise the stored list becomes the loaded one without the SSID, and is always written back |
| LedsDriver.LatestAppend | main/leds_driver.c:287-309 | over two runs of queue messages, the latest queued command for an LED is the second run's last command for it when there is one, otherwise the first run's |
| LedsDriver.AllOffMeaning | main/leds_driver.c:142-157 | after `all_leds_off` every LED's last command is "off", and exactly three messages are queued |
| LedsDriver.LightingMeaning | main/leds_driver.c:168-263 | a lighting call leaves its own LED in the command it sends and, when asked to turn the others off, every other LED off; otherwise the others keep their last command |
| LedsDriver.ActionMeaning | main/leds_driver.c:168-263 | `led_on` leaves its LED steadily on; the two blinking calls leave it blinking at their interval, without end or for the given number of times; with `turn_off_previous_leds` every other LED is off, otherwise untouched |
| LedsDriver.OffMeaning | main/leds_driver.c:194-206 | `led_off` turns its LED off and sends nothing to any other LED |
| LedsDriver.AllCommandsAppend | main/leds_driver.c:142-263 | the messages of several calls are each call's messages, in call order |
| LedsDriver.PinInitsShape | main/leds_driver.c:90-95 | every LED pin is configured with interrupts off, made an output and driven low: three stores per pin, in table order |
| LedsDriver.UnconnectedPinIsSetUp | main/leds_driver.c:126-130 | the always-true guard lets a pin of -1 through, and it is set up as GPIO 65535 |
| LedsDriver.Leds.AllLedsInit | main/leds_driver.c:111-134 | the pins go into the table by LED index (red, green, yellow), every pin is set up, and the driver is marked initialised |
| LedsDriver.Leds.AllLedsOff | main/leds_driver.c:142-157 | before initialisation nothing is queued; afterwards one "off" message per LED, in table order |
| LedsDriver.Leds.LedOn | main/leds_driver.c:168-184 | nothing before initialisation; otherwise the optional `all_leds_off`, then the "on" message for the LED |
| LedsDriver.Leds.LedOff | main/leds_driver.c:194-206 | nothing before initialisation; otherwise one "off" message for the LED |
| LedsDriver.Leds.LedBlinkingLimitedTimes | main/leds_driver.c:219-235 | nothing before initialisation; otherwise the optional `all_leds_off`, then the message with the interval and the number of blinks |
| LedsDriver.Leds.LedBlinking | main/leds_driver.c:247-263 | nothing before initialisation; otherwise the optional `all_leds_off`, then the message with the interval and no limit |
| LedsDriver.Leds.Apply | main/leds_driver.c:142-263 | any driver call queues exactly the messages of that call, and only once the driver is initialised |
| Interrupts.UntriggeredKeeps | main/interrupts.c:108 | an interrupt whose status lacks the button pin's bit changes nothing |
| Interrupts.PressRecordsStart | main/interrupts.c:119-122 | a falling edge records the press time and the level, and nothing else |
| Interrupts.SameLevelKeepsTiming | main/interrupts.c:118-163 | a level equal to the last one changes neither timing nor flags, only the remembered level |
| Interrupts.LongPressResets | main/interrupts.c:127-135 | a release at least 5000 ms after the press raises the reset flag, clears the clicks, and keeps the last release time and the triple flag |
| Interrupts.ShortPressCounts | main/interrupts.c:138-158 | a shorter press counts a click (restarting at one after more than three seconds), records the release time, and raises the triple flag, clearing the count, exactly when the count reaches three |
| Interrupts.HandleKeepsValid | main/interrupts.c:97-165 | the handler keeps the click count between 0 and 2 and never lowers a flag |
| Interrupts.RunKeepsValid | main/interrupts.c:97-165 | over any run of interrupts the click count stays between 0 and 2 and the flags never go down |
| Interrupts.RunAppend | main/interrupts.c:97-165 | a run of interrupts split in two is the second part applied after the first |
| Interrupts.TripleClickRaisesFlag | main/interrupts.c:138-158 | three short clicks one second apart, from the boot state, raise the triple flag, leave the reset flag down and no clicks counted |
| Interrupts.LongPressThreshold | main/interrupts.c:128-131 | a press of exactly 5 000 000 us is a reset and one of 4 999 999 us a click, with C's truncating division |
| Interrupts.ButtonIsr.EnableInterrupts | main/interrupts.c:182-199 | the GPIO interrupt is routed to CPU line 4 by one store into the interrupt matrix, and the handler watches the given pin |
| Interrupts.ButtonIsr.Handler | main/interrupts.c:97-165 | when the status has the pin's bit, the pin's pending bit is cleared by one store and the level sample is taken; otherwise nothing changes; the recogniser moves as the gesture step says |
| Interrupts.ButtonIsr.OnSample | main/interrupts.c:114-163 | the level sample of a triggered interrupt moves the state as the gesture step says |
| Interrupts.ButtonIsr.OnRelease | main/interrupts.c:124-160 | a release moves the state as the long-press and click rules say |
| NvsMemory.NvsStore.Erase | main/main.c:310 | the erase of the flash leaves no stored credential list |
| LcdDriver.RowOffset | main/lcd_driver.c:225 | row 0 starts at DDRAM address 0x00 and row 1 at 0x40; no other row has an offset |
| LcdDriver.SetAddress | main/lcd_driver.c:226 | the address instruction has bit 7 set and carries the low seven bits of the address |
| LcdDriver.TokenLen | main/lcd_driver.c:305-323 | the token at the head of a text holds no space and ends at a space or at the end |
| LcdDriver.NibbleBits | main/lcd_driver.c:92-95 | the four data bits of a byte weigh up to its low nibble |
| LcdDriver.NibbleRoundTrip | main/lcd_driver.c:89-105 | a nibble is sent as bits 0-3 on d4-d7, then the enable pulse, and the data levels give the nibble back |
| LcdDriver.ByteRoundTrip | main/lcd_driver.c:119-124 | a byte is sent as RS set to its register, then the high and the low nibble, which recombine to the byte |
| LcdDriver.CursorAddresses | main/lcd_driver.c:223-227 | the cursor instruction addresses column `c` of row 0 as 0x80 + c and of row 1 as 0xC0 + c |
| LcdDriver.InitWritesMeaning | main/lcd_driver.c:144-164 | the pin set-up makes eighteen stores: six configurations with the interrupt disabled, six output enables and six levels driven low, in pin order |
| LcdDriver.OnScreenAppend | main/lcd_driver.c:306-324 | two layouts that stay on the display make one that does |
| LcdDriver.ShownPinsAppend | main/lcd_driver.c:306-324 | the pins of two runs of shown items are the pins of the first, then those of the second |
| LcdDriver.ShowPinsSnoc | main/lcd_driver.c:306-324 | one more word adds exactly that word's pins at the place the earlier words reached |
| LcdDriver.WordRender | main/lcd_driver.c:309-321 | the pins sent for one word are those of its layout: the row change of a wrap, then the word and a space |
| LcdDriver.ShowPinsRender | main/lcd_driver.c:302-324 | what `LCD_show_lines` sends is the rendering of the corrected layout of the words |
| LcdDriver.TokensRoundTrip | main/lcd_driver.c:305-323 | tokens are maximal: non-empty words without spaces, each written with a space after it, split back into exactly those words |
| LcdDriver.TokensHead | main/lcd_driver.c:305-323 | a word followed by a space is cut off whole as the first token and the space is dropped |
| LcdDriver.TokensWord | main/lcd_driver.c:305-323 | a text that is one word without spaces is that one token |
| LcdDriver.TokensThree | main/lcd_driver.c:305-323 | three words with a space between each split into exactly those three |
| LcdDriver.TokensOfSpaces | main/lcd_driver.c:305-323 | a text of spaces alone gives no token |
| LcdDriver.TokensMeaning | main/lcd_driver.c:305-323 | `strtok` on spaces gives non-empty tokens without spaces which together hold every non-space character of the text, in order |
| LcdDriver.NonSpacesSplit | main/lcd_driver.c:305-323 | the non-space characters of a space-free head followed by a rest are the head followed by those of the rest |
| LcdDriver.LayoutShowsWords | main/lcd_driver.c:319-320 | whatever the wrap, the words are printed in order, each followed by one space |
| LcdDriver.TextsAppend | main/lcd_driver.c:319-320 | the text printed by two layouts is the text of the first, then of the second |
| LcdDriver.SpacedSnoc | main/lcd_driver.c:319-320 | one more word prints the word and one space after what came before |
| LcdDriver.CorrectedOnScreen | main/lcd_driver.c:309-317 | with the wrap stopping at the last row, every row moved to is on the display, from any starting row of the display |
| LcdDriver.AsWrittenLeavesScreen | main/lcd_driver.c:311-314 | as written, the words of "Wi-Fi reconnection failed" from row 0 make the layout ask for row 2, which `row_offsets` does not have |
| LcdDriver.CorrectedStaysOnScreen | main/lcd_driver.c:311-314 | the same message with the intended wrap stays on rows 0 and 1 |
| LcdDriver.ReconnectFailedWords | main/web_application.c:297 | the message splits into exactly its three words |
| LcdDriver.Lcd.constructor | main/lcd_driver.c:141 | a display on which nothing has been sent |
| LcdDriver.Lcd.Refresh | main/lcd_driver.c:67-75 | the enable pin driven low, high, low |
| LcdDriver.Lcd.Write4 | main/lcd_driver.c:89-105 | the nibble's levels on d4-d7, then the enable pulse |
| LcdDriver.Lcd.Write8 | main/lcd_driver.c:119-124 | RS, then the high nibble, then the low nibble |
| LcdDriver.Lcd.Initialize | main/lcd_driver.c:141-189 | the eighteen register stores of the pin set-up, then the three 0x03 nibbles, the 0x02 nibble, function set, display on, clear, entry mode and the cursor at home |
| LcdDriver.Lcd.ConfigurePins | main/lcd_driver.c:144-149 | one configuration store per pin, interrupts disabled, in pin order |
| LcdDriver.Lcd.OutputPins | main/lcd_driver.c:151-156 | one output-enable store per pin, in pin order |
| LcdDriver.Lcd.LowPins | main/lcd_driver.c:159-164 | one output-clear store per pin, in pin order |
| LcdDriver.Lcd.SendInit | main/lcd_driver.c:169-184 | the 4-bit entry, the four set-up instructions and the cursor at home |
| LcdDriver.Lcd.Clear | main/lcd_driver.c:205-209 | the clear instruction |
| LcdDriver.Lcd.SetCursor | main/lcd_driver.c:223-227 | the address instruction for the column on the row's offset |
| LcdDriver.Lcd.WriteChar | main/lcd_driver.c:238-241 | the character's byte sent to the data register |
| LcdDriver.Lcd.Print | main/lcd_driver.c:255-262 | every character of the text as a data byte, in order |
| LcdDriver.Lcd.ShowWord | main/lcd_driver.c:309-321 | one word: the row change of a wrap, the word and a space; the new place is the layout's next place and stays on the display |
| LcdDriver.Lcd.ShowLines | main/lcd_driver.c:282-329 | nothing when the copy cannot be allocated; otherwise the optional clear, the cursor at the first row, then the words laid out with the intended wrap |
| LcdDriver.Lcd.ShowWords | main/lcd_driver.c:305-324 | the words from the given row, column 0, as the corrected layout sends them |
| MqttModel.Keepalive | main/mqtt_manager.c:176 | the session keepalive is the configured one when positive and 20 seconds otherwise |
| MqttModel.Inbound | main/mqtt_manager.c:386-395 | an inbound topic or payload keeps at most `size - 1` characters of what arrived, up to its first NUL |
| MqttModel.MatchFrom | main/mqtt_manager.c:400-406 | the entry found has exactly the topic asked for and no earlier entry from the start point has it; none is found only when no entry from the start point has it |
| MqttModel.InitOutcome | main/mqtt_manager.c:140-196 | a missing configuration or URI is refused before the context is touched; otherwise the context is zeroed and gets the configuration, callbacks and table, and is initialised exactly when the event group and the client are created |
| MqttModel.SubscriptionsAppend | main/mqtt_manager.c:435-441 | the subscriptions of two tables one after the other are those of the first, then those of the second |
| MqttModel.SubscriptionsCover | main/mqtt_manager.c:435-441 | every subscription is at QoS 1 to a topic of the table, and every entry with a topic is subscribed to |
| MqttModel.SubscribeAllOutcome | main/mqtt_manager.c:430-443 | only a missing or empty table is refused; otherwise the result is success |
| MqttModel.ConnectedFlags | main/mqtt_manager.c:365-368 | a connect event sets `connected` and the CONNECTED bit and leaves the other flags alone |
| MqttModel.ConnectedSubscribes | main/mqtt_manager.c:370 | a connect event subscribes to every topic of the table, in order, and makes no other client call |
| MqttModel.ConnectedReportsOnly | main/mqtt_manager.c:368-371 | besides the subscriptions, a connect event only adds status reports |
| MqttModel.ConnectedHookLast | main/mqtt_manager.c:373-374 | after a connect event the connected hook runs last, and only when it is set |
| MqttModel.DisconnectedOutcome | main/mqtt_manager.c:378-382 | a disconnect event clears `connected` and sets the FAIL bit |
| MqttModel.DataDispatch | main/mqtt_manager.c:385-407 | a data event gives `on_message` the cut topic and payload first; then only the first entry with the same topic is consulted, even without a handler, and its handler gets the payload alone |
| MqttModel.DataUnmatched | main/mqtt_manager.c:397-406 | a topic no entry names reaches only `on_message` |
| MqttModel.WaitFrame | main/mqtt_manager.c:217-222 | a wait never changes `started` or `initialized`, and is recorded with its timeout |
| MqttModel.WaitPending | main/mqtt_manager.c:217-222 | an awaited bit already set is returned at once, without waiting for an event, and is cleared on exit |
| MqttModel.WaitArrives | main/mqtt_manager.c:217-222 | otherwise the wait returns what the arriving event sets: CONNECTED for a connect, FAIL for a disconnect, nothing when no event arrives |
| MqttModel.StartOutcome | main/mqtt_manager.c:207-231 | an uninitialised context is refused unchanged; otherwise the client starts, `started` is set, the wait is bounded by the timeout (15000 ms for 0), and the result is OK with `connected` exactly when the connect event arrives in time |
| MqttModel.DefaultTimeouts | main/mqtt_manager.c:221-252 | a timeout of 0 means 15000 ms for a start and 3000 ms for a stop |
| MqttModel.StopOutcome | main/mqtt_manager.c:242-264 | a context that is not started is left alone with OK; the FAIL bit, already set or set by the disconnect that arrives, clears both flags and gives OK; otherwise the result is FAIL with `started` still set |
| MqttModel.DeinitOutcome | main/mqtt_manager.c:276-292 | a deinit stops a started client, leaves a zeroed context and destroys the client last; the report sent after zeroing reaches no callback |
| MqttModel.DeinitZeroed | main/mqtt_manager.c:276-292 | a deinit of a context that is already zeroed changes nothing and reports nothing |
| MqttModel.PublishOutcome | main/mqtt_manager.c:306-322 | a missing client, topic or message is refused; a disconnected context is refused without touching the client; otherwise the message goes to the client and the result is FAIL exactly when it returns a negative message id |
| MqttManager.Manager.constructor | main/mqtt_manager.c:140-146 | a zeroed context |
| MqttManager.Manager.Report | main/mqtt_manager.c:95-101 | the status reaches `on_status` only when that callback is set and the report asks for it |
| MqttManager.Manager.Clear | main/mqtt_manager.c:146 | the context becomes the zeroed context |
| MqttManager.Manager.SubscribeAll | main/mqtt_manager.c:430-443 | the context and the result are those of the subscription model: one subscription per entry with a topic, in table order |
| MqttManager.Manager.OnConnected | main/mqtt_manager.c:365-375 | the context after a connect event, as the event model gives it |
| MqttManager.Manager.OnDisconnected | main/mqtt_manager.c:378-382 | the context after a disconnect event, as the event model gives it |
| MqttManager.Manager.Dispatch | main/mqtt_manager.c:400-406 | the loop runs only the handler of the first entry whose topic matches, and stops there |
| MqttManager.Manager.OnData | main/mqtt_manager.c:385-408 | the context after a data event, as the event model gives it |
| MqttManager.Manager.EventCore | main/mqtt_manager.c:361-415 | every event moves the context as the event model says, and the result is always OK |
| MqttManager.Manager.Wait | main/mqtt_manager.c:217-222 | the bits returned and the new context are those of the wait model |
| MqttManager.Manager.Setup | main/mqtt_manager.c:140-196 | the context and result of `mqm_init` as the initialisation model gives them |
| MqttManager.Manager.StartClient | main/mqtt_manager.c:207-231 | the context and result of `mqm_start` as the start model gives them |
| MqttManager.Manager.StopClient | main/mqtt_manager.c:242-264 | the context and result of `mqm_stop` as the stop model gives them |
| MqttManager.Manager.Teardown | main/mqtt_manager.c:276-292 | the context after `mqm_deinit`, as the deinit model gives it |
| MqttManager.Manager.PublishEx | main/mqtt_manager.c:306-322 | the context and result of `mqm_publish_ex` as the publish model gives them |
| MqttManager.Init | main/mqtt_manager.c:143-144 | a NULL context is refused as an invalid argument; otherwise the context's `mqm_init` |
| MqttManager.Start | main/mqtt_manager.c:209-210 | a NULL context is in the wrong state; otherwise the context's `mqm_start` |
| MqttManager.Stop | main/mqtt_manager.c:244-245 | a NULL context has nothing to stop and gives OK; otherwise the context's `mqm_stop` |
| MqttManager.Deinit | main/mqtt_manager.c:278-279 | nothing for a NULL context; otherwise the context's `mqm_deinit` |
| MqttManager.Publish | main/mqtt_manager.c:308-309 | a NULL context is an invalid argument; otherwise the context's `mqm_publish_ex` |
| MqttManager.IsConnected | main/mqtt_manager.c:332-338 | true exactly for a non-NULL context whose `connected` flag is set |
| MqttCallbacks.StatusActions | main/mqtt_callbacks.c:85-110 | every status except `MQM_NONE` makes at least one LED call |
| MqttCallbacks.StatusLeds | main/mqtt_callbacks.c:85-110 | each branch leaves every LED as intended: connecting and disconnecting blink yellow, connected lights yellow and green, disconnected turns yellow off, error lights red and turns yellow off, and no branch switches other LEDs off |
| MqttCallbacks.TwoCalls | main/mqtt_callbacks.c:91-92 | after two LED calls an LED is in the second call's command when that call addresses it, otherwise in the first's |
| MqttCallbacks.TwoCommands | main/mqtt_callbacks.c:91-92 | two LED calls queue the first call's messages, then the second's |
| MqttCallbacks.OnlyNoneReaches | main/mqtt_callbacks.c:57-81 | as written, with the previous status fixed at `MQM_NONE`, only a `MQM_NONE` report gets through, and it makes no LED call |
| MqttCallbacks.AsWrittenHidesTransitions | main/mqtt_callbacks.c:57-81 | as written, a connection going through connecting, connected and error shows none of them |
| MqttCallbacks.CorrectedShowsTransitions | main/mqtt_callbacks.c:73-83 | with the intended filter no status is shown twice in a row, nothing is shown exactly when every report repeats the previous status, and otherwise the display ends on the latest report |
| MqttCallbacks.MqttCallbacksHandler.constructor | main/mqtt_callbacks.c:51-57 | not initialised, a zeroed LCD context, previous status `MQM_NONE` |
| MqttCallbacks.MqttCallbacksHandler.Init | main/mqtt_callbacks.c:169-175 | the LCD context is kept and the module is marked initialised |
| MqttCallbacks.MqttCallbacksHandler.OnMqttStatus | main/mqtt_callbacks.c:73-111 | nothing before initialisation or for a report other than the previous status; otherwise the text on the LCD from row 0 after a clear, then the status's LED calls in order |
| MqttCallbacks.MqttCallbacksHandler.StatusLedCalls | main/mqtt_callbacks.c:85-110 | the `switch` queues exactly the status's LED calls, in order, once the LED driver is initialised |
| MqttCallbacks.MqttCallbacksHandler.PublishWhenClientConnected | main/mqtt_callbacks.c:145-153 | nothing before initialisation; otherwise one publish of "device connected" on the device-connection topic, QoS 1, no retain |
| Esp.CDiv | main/interrupts.c:128 | the quotient truncates toward zero and the remainder takes the dividend's sign, as in C |
| WifiScan.FindEntry | main/wifi_manager.c:425-430 | the entry found carries the name asked for and no earlier entry does; none is found only when no entry does |
| WifiScan.IsSsidAvailable | main/wifi_manager.c:769-778 | false for a NULL name; otherwise true exactly when some entry of the last scan has that name |
| WifiScan.AddRecordKeepsWellFormed | main/wifi_manager.c:420-441 | a turn of the building loop keeps the list within 32 entries, its names distinct and non-empty |
| WifiScan.Dedup | main/wifi_manager.c:419-441 | the list built from the records is well formed: at most 32 distinct, non-empty names |
| WifiScan.DedupSnoc | main/wifi_manager.c:420-441 | one more record is one more turn of the loop |
| WifiScan.DedupSound | main/wifi_manager.c:432-440 | every listed entry was reported by some record with exactly that name and that RSSI |
| WifiScan.DedupComplete | main/wifi_manager.c:420-441 | while the list is not full, every non-empty name reported is listed, with an RSSI at least that of each of its records |
| WifiScan.DedupSaturated | main/wifi_manager.c:420 | once 32 names are listed every later record is ignored, even one for a listed name with a stronger signal |
| WifiScan.FirstSeen | main/wifi_manager.c:420-441 | the index is that of the first record naming the SSID, or the number of records when none does |
| WifiScan.FirstSeenSnoc | main/wifi_manager.c:420-441 | a later record does not move an earlier first sighting |
| WifiScan.DedupFirstSeenOrder | main/wifi_manager.c:432-437 | the entries keep the order in which their names were first reported |
| WifiScan.OrderAfterAppend | main/wifi_manager.c:432-437 | a turn that appends a new name keeps first-seen order |
| WifiScan.OrderAfterKeep | main/wifi_manager.c:438-440 | a turn that only raises an RSSI keeps first-seen order |
| WifiCallbacks.StatusAction | main/WiFi_callbacks.c:70-94 | every Wi-Fi status but the "none" value makes exactly one LED call |
| WifiCallbacks.StatusLeds | main/WiFi_callbacks.c:70-94 | connecting blinks green with the others off, connected lights green, disconnecting blinks green, disconnected turns green off, error lights red with the others off |
| WifiCallbacks.WifiCallbacksHandler.constructor | main/WiFi_callbacks.c:125 | not initialised, a zeroed LCD context |
| WifiCallbacks.WifiCallbacksHandler.Init | main/WiFi_callbacks.c:125-130 | the LCD context is kept and the module is marked initialised |
| WifiCallbacks.WifiCallbacksHandler.OnWifiStatus | main/WiFi_callbacks.c:59-95 | nothing before initialisation; otherwise the message on the LCD from row 0 after a clear, then the status's LED call |
| HttpServer.SpanNot | main/http_server.c:218 | the `%63[^&]` conversion takes no `&`, and stops short of 63 characters only at an `&` or at the end |
| HttpServer.SpanWord | main/http_server.c:218 | the `%63s` conversion takes no white space, and stops short of 63 characters only at white space or at the end |
| HttpServer.SkipSpace | main/http_server.c:218 | the white space skipped before `%s` is all white space and is followed by a non-space or the end |
| HttpServer.FormBuffer | main/http_server.c:202-212 | the parsed buffer holds at most 127 received bytes and no NUL |
| HttpServer.RecvResult | main/http_server.c:203 | the receive result is 0 or less exactly on a receive error or an empty body |
| HttpServer.ParseFormBounds | main/http_server.c:214-218 | both fields fit 63 characters, the SSID holds no `&`, the password no white space, and neither holds a NUL |
| HttpServer.ParseFormMismatches | main/http_server.c:218 | a body not led by "ssid=", or with nothing before the `&`, leaves both fields empty; an SSID running past 63 characters keeps its first 63 and leaves the password empty |
| HttpServer.SpanNotExact | main/http_server.c:218 | the span stops exactly at the end of an `&`-free part followed by `&` or by nothing |
| HttpServer.SpanWordExact | main/http_server.c:218 | the word span stops exactly at the end of a string without white space |
| HttpServer.FormRoundTrip | main/http_server.c:218 | the form the web page sends parses back to its two fields, for an SSID of 1 to 63 characters without `&` and a password of up to 63 characters without white space |
| HttpServer.PlusToSpaceKeepsCString | main/http_server.c:222-223 | decoding a field keeps it free of NUL and within its length |
| HttpServer.RoutesMeaning | main/http_server.c:265-275 | the four URIs are distinct, and only `/set` takes a POST, served by the credentials handler |
| HttpServer.HttpServerModule.constructor | main/http_server.c:61-62 | not initialised |
| HttpServer.HttpServerModule.Init | main/http_server.c:333-340 | the LCD context and the storage handle are kept and the module is marked initialised |
| HttpServer.HttpServerModule.StartWebserver | main/http_server.c:251-281 | no server before initialisation or when the server does not start; otherwise a server with the page, style, script and `/set` routes |
| HttpServer.HttpServerModule.SetPostHandler | main/http_server.c:200-237 | a failed or empty receive answers 500, lights red with the others off, shows "Server ERROR" and leaves the store untouched; otherwise the decoded fields are stored, the reply is "Saved! Rebooting...", green blinks five times with the others off, two messages are shown and the device restarts |
| HttpServer.HttpServerModule.DecodeField | main/http_server.c:222-223 | a field put into its 64-byte buffer comes back with every `+` turned into a space |
| WifiModel.Classify | main/wifi_manager.c:150-165 | the four authentication reasons mean "wrong password", "no AP found" means "no AP", and everything else, including a missing payload, means "other"; a disconnect is never "none" |
| WifiModel.GotIpInfo | main/wifi_manager.c:195-215 | GOT_IP records the station configuration's name and password, each cut to its field, and the signal reading or "N/A" when there is none |
| WifiModel.Clamp | main/wifi_manager.c:270-274 | the saved list is copied whole, with its count clamped to fifteen |
| WifiModel.ApConf | main/wifi_manager.c:490-496 | the access point gets the name and the password cut to their fields, channel 6 and at most four stations, and is open exactly when the password is NULL or empty |
| WifiModel.Available | main/wifi_manager.c:578-581 | the networks tried are saved entries, never more than are saved, and the last scan lists each of them |
| WifiModel.FirstJoin | main/wifi_manager.c:594-606 | the wait picked ends with GOT_IP and every earlier one does not; none is picked only when no wait does |
| WifiModel.JoinTarget | main/wifi_manager.c:578-611 | the network joined is one of the candidates |
| WifiModel.JoinTargetShift | main/wifi_manager.c:608-611 | a failed first wait hands the remaining waits to the remaining candidates |
| WifiModel.Candidates | main/wifi_manager.c:821-832 | a reconnect round tries the last connection first, then every saved entry in saved order |
| WifiModel.InvCarries | main/wifi_manager.c:128-226 | the invariant (fifteen credential slots with a count within them, a well-formed scan list, a started station only in station mode) depends only on the saved list, the scan list, `started` and the driver's mode |
| WifiModel.EventsKeepInv | main/wifi_manager.c:128-226 | every event the handler takes keeps the invariant |
| WifiModel.GotIpFrame | main/wifi_manager.c:193-223 | GOT_IP changes only the connection info, `connected` and the notices |
| WifiModel.DisconnectedOutcome | main/wifi_manager.c:148-176 | a disconnect clears `connected`, records the classified reason, and schedules one reconnect task exactly when auto-reconnect is on and no stop was asked for |
| WifiModel.GotIpOutcome | main/wifi_manager.c:193-223 | GOT_IP sets `connected` and records the configured network's name and password within their fields; a missing signal reading is recorded as "N/A" and reported as an unstable connection before the connected status |
| WifiModel.AwaitLastDisc | main/wifi_manager.c:148-165 | a wait records a disconnect reason exactly when it ends with a disconnect |
| WifiModel.AwaitFrame | main/wifi_manager.c:594-600 | a wait takes exactly one outcome, changes no mode, flag or configuration, and reports a connection, with the configured name and password, exactly when the outcome is GOT_IP |
| WifiModel.AttemptJoins | main/wifi_manager.c:583-606 | a started attempt whose wait ends with GOT_IP leaves the manager joined to that network |
| WifiModel.TryCredsOutcome | main/wifi_manager.c:577-614 | the available saved networks are tried in order, one wait each, and the first whose wait ends with GOT_IP is joined and named in the connection info; without driver errors the result is success exactly when such a wait exists, and ESP_FAIL otherwise |
| WifiModel.CollectScanCases | main/wifi_manager.c:384-446 | the scan proper either builds the list from the driver's records and reports it, or leaves the state as it was at the failing call; without driver errors it succeeds |
| WifiModel.ScanSyncOutcome | main/wifi_manager.c:363-446 | a scan leaves the station started and the list built from the driver's records, hands it to the JSON callback, and keeps the old list on every error; without driver errors it succeeds |
| WifiModel.ScanSyncKeepsInv | main/wifi_manager.c:363-446 | a scan keeps the invariant |
| WifiModel.StopStaOutcome | main/wifi_manager.c:924-952 | stopping the station succeeds exactly when `esp_wifi_stop` succeeds on a started station, which is then stopped |
| WifiModel.StopStaKeepsInv | main/wifi_manager.c:924-952 | stopping the station keeps the invariant |
| WifiModel.FirstConnectOutcome | main/wifi_manager.c:557-615 | with no saved network it fails at once and changes nothing; a success is a join to a saved network the fresh scan lists; without driver errors it succeeds exactly when some available saved network, in saved order, gets GOT_IP |
| WifiModel.FirstConnectKeepsInv | main/wifi_manager.c:557-615 | the first connection keeps the invariant |
| WifiModel.BringUpApSucceeds | main/wifi_manager.c:482-500 | without driver errors the access point comes up |
| WifiModel.BringUpApOutcome | main/wifi_manager.c:482-502 | once up, the manager is in access point mode, the driver in AP mode, with the configuration set and the driver started last |
| WifiModel.StartApOutcome | main/wifi_manager.c:470-505 | a NULL name changes nothing; otherwise, without driver errors, the driver ends in AP mode configured by ApConf, and the station is stopped |
| WifiModel.StartApKeepsInv | main/wifi_manager.c:470-505 | starting the access point keeps the invariant |
| WifiModel.StopApAfterStartApIsNoOp | main/wifi_manager.c:518-522 | as written, stopping the access point right after starting it does nothing, because `started` tracks only the station |
| WifiModel.StopApCorrectedStops | main/wifi_manager.c:522-533 | with the guard on the AP mode alone, the stop leaves mode NONE and the driver stopped and released, and does nothing outside AP mode |
| WifiModel.StopApCorrectedAfterStartAp | main/wifi_manager.c:470-534 | after a successful start of the access point the corrected stop shuts it down |
| WifiModel.StopApKeepsInv | main/wifi_manager.c:518-534 | both stops keep the invariant |
| WifiModel.FullDriverStopOutcome | main/wifi_manager.c:634-651 | the driver ends stopped and released, mode NONE, the link down, `manual_stop` cleared again, auto-reconnect kept, and the disconnect it causes schedules no reconnect task |
| WifiModel.StopDisconnect | main/wifi_manager.c:171 | a disconnect while `manual_stop` is set drops the link and schedules no reconnect task |
| WifiModel.FullDriverStopKeepsInv | main/wifi_manager.c:634-651 | the full stop keeps the invariant |
| WifiModel.TryRoundOutcome | main/wifi_manager.c:821-859 | a round stops at a driver error or at the first available candidate whose wait ends with GOT_IP, which is then joined; otherwise the reconnect flag, the mode and the connection info are untouched |
| WifiModel.TryRoundKeepsInv | main/wifi_manager.c:821-859 | the candidate loop of a round keeps the invariant |
| WifiModel.RoundKeepsInv | main/wifi_manager.c:810-859 | a reconnect round keeps the invariant |
| WifiModel.RoundOutcome | main/wifi_manager.c:810-859 | a round keeps the saved list and the callbacks, a join is to a candidate the round's scan lists, and a round without a join leaves auto-reconnect off and the connection info unchanged |
| WifiModel.RoundScans | main/wifi_manager.c:812 | a round takes at most one scan and keeps the saved list and the callbacks |
| WifiModel.RoundJoined | main/wifi_manager.c:821-859 | a joining round joins a candidate the scan saw; an exhausted one leaves the candidates as they were; an aborted one reports an error |
| WifiModel.RoundsKeepInv | main/wifi_manager.c:809-864 | the rounds keep the invariant, the saved list and the callbacks |
| WifiModel.RoundsJoin | main/wifi_manager.c:809-860 | a success of the rounds is a join to a candidate the last scan lists |
| WifiModel.RoundsNext | main/wifi_manager.c:809-860 | a round either finds nothing and leaves the rest to the next round, or ends the rounds with a join or with the driver's error and auto-reconnect still off |
| WifiModel.RoundsUnfold | main/wifi_manager.c:809-860 | a join or a driver error ends the loop; an exhausted round goes on to the next attempt |
| WifiModel.RoundsGiveUp | main/wifi_manager.c:809-864 | a failure of the rounds turns auto-reconnect back on; a driver error leaves it off |
| WifiModel.GiveUpOutcome | main/wifi_manager.c:862-864 | after the last round the result is ESP_FAIL, auto-reconnect is on again and the failure is reported |
| WifiModel.ReconnectOutcome | main/wifi_manager.c:802-865 | at most five rounds; a success is a join to the last connection or a saved network the round's scan lists; five failed rounds re-enable auto-reconnect; a driver error leaves it off |
| WifiModel.ChangeKeepsInv | main/wifi_manager.c:698-714 | the switch attempt keeps the invariant |
| WifiModel.FallBackWaitKeepsInv | main/wifi_manager.c:729-732 | the fallback wait keeps the invariant |
| WifiModel.FallBackKeepsInv | main/wifi_manager.c:723-737 | the fallback to the previous network keeps the invariant |
| WifiModel.ChangeNetworkRejects | main/wifi_manager.c:683-684 | a NULL name or password is refused before anything is touched |
| WifiModel.ChangeNetworkDriverError | main/wifi_manager.c:695-706 | an early driver error returns it with nothing written through `out_reason` and auto-reconnect left off |
| WifiModel.ChangeNetworkJoins | main/wifi_manager.c:716-721 | a switch that connects returns OK with reason NONE, auto-reconnect on again, and the new network's name and password in the connection info |
| WifiModel.ChangeNetworkFails | main/wifi_manager.c:723-740 | a switch that does not connect returns ESP_FAIL with a reason and auto-reconnect on again |
| WifiModel.ChangeNetworkReason | main/wifi_manager.c:709-734 | when the new network drops the link and the fallback wait sees no further disconnect, the reason returned is the new network's, classified |
| WifiModel.ChangeNetworkReverts | main/wifi_manager.c:723-737 | when the new network fails and the previous one connects, the manager is back on the previous network and no reconnect round runs |
| WifiModel.ChangeNetworkKeepsInv | main/wifi_manager.c:678-741 | switching networks keeps the invariant |
| WifiModel.InitOutcome | main/wifi_manager.c:253-298 | the context is zeroed, takes the configuration or the default, copies the callbacks and the saved list with its count clamped, and succeeds exactly when the netif, the event group and both registrations do; then the mode is NONE and "Wi-Fi manager initialized" is reported |
| WifiModel.DeinitOutcome | main/wifi_manager.c:319-343 | the driver ends stopped and released and the context zeroed |
| WifiManager.Manager.constructor | main/wifi_manager.c:261 | a zeroed context, which satisfies the invariant |
| WifiManager.Manager.Notify | main/wifi_manager.c:1003-1012 | the status reaches `on_status` only when that callback is set and the report asks for it |
| WifiManager.Manager.ReportScan | main/wifi_manager.c:1028-1050 | the scan list goes to `on_scan_json` only when that callback is set |
| WifiManager.Manager.HandleEvent | main/wifi_manager.c:128-226 | each event moves the context as the event model says: start, stop, disconnect with its reason, GOT_IP with its readings |
| WifiManager.Manager.AwaitConnection | main/wifi_manager.c:594-600 | the wait takes one outcome and reports a join exactly as the wait model does |
| WifiManager.Manager.IsSsidAvailable | main/wifi_manager.c:769-778 | the linear search answers exactly whether the last scan lists the name |
| WifiManager.Manager.FindScanEntry | main/wifi_manager.c:424-430 | -1 exactly when the name is not listed, otherwise the index of its first entry |
| WifiManager.Manager.AddRecordToScan | main/wifi_manager.c:421-440 | one record appends a new name or raises a listed name's RSSI, as one turn of the model |
| WifiManager.Manager.BuildScanList | main/wifi_manager.c:419-441 | the loop builds exactly the de-duplicated list of the records |
| WifiManager.Manager.ScanSync | main/wifi_manager.c:363-446 | the context and the result of the scan model |
| WifiManager.Manager.DisconnectSta | main/wifi_manager.c:884-912 | the context after `wfm_disconnect_sta`, as the model gives it |
| WifiManager.Manager.StopSta | main/wifi_manager.c:924-952 | the context and the result of the station-stop model |
| WifiManager.Manager.TryCreds | main/wifi_manager.c:577-614 | the candidate loop ends as the model's loop over the saved networks does |
| WifiManager.Manager.FirstConnect | main/wifi_manager.c:557-615 | the context and the result of the first-connection model, keeping the invariant |
| WifiManager.Manager.TryRound | main/wifi_manager.c:821-859 | the candidate loop of a round ends as the model's round does |
| WifiManager.Manager.TryCandidates | main/wifi_manager.c:821-859 | the loop from the last connection through the saved networks reports the round's end |
| WifiManager.Manager.ReconnectRound | main/wifi_manager.c:810-859 | one round, a scan then the candidate loop, ends as the model's round does |
| WifiManager.Manager.Reconnect | main/wifi_manager.c:802-865 | the context and the result of the reconnect model, keeping the invariant |
| WifiManager.Manager.ReconnectRounds | main/wifi_manager.c:809-864 | the round loop ends exactly where the model's rounds end |
| WifiManager.Manager.StartAp | main/wifi_manager.c:470-505 | the context and the result of the access point start model, keeping the invariant |
| WifiManager.Manager.StopAp | main/wifi_manager.c:518-534 | as written: nothing changes and OK is returned unless `started` and AP mode both hold; otherwise the driver is stopped and released, the mode is NONE and the stop is reported; the invariant is kept |
| WifiManager.Manager.FullDriverStop | main/wifi_manager.c:634-651 | the context of the full-stop model, always with OK, keeping the invariant |
| WifiManager.Manager.ChangeNetwork | main/wifi_manager.c:678-741 | the context, the result and what is written through `out_reason`, as the switch model gives them, keeping the invariant |
| WifiManager.Manager.Setup | main/wifi_manager.c:258-298 | the context and the result of the initialisation model |
| WifiManager.Manager.Teardown | main/wifi_manager.c:319-343 | the context after the deinit model |
| WifiManager.Init | main/wifi_manager.c:258 | a NULL context is refused as an invalid argument before anything is touched; otherwise the context's `wfm_init` |
| WifiManager.Deinit | main/wifi_manager.c:321 | nothing for a NULL context; otherwise the context's `wfm_deinit` |
| WifiManager.IsConnected | main/wifi_manager.c:756-760 | true exactly for a non-NULL context whose `connected` flag is set |
| WifiManager.TriesFrom | main/wifi_manager.c:821-859 | the model's candidate loop from any candidate on is a run the method's loop can follow |
| WifiManager.TryStep | main/wifi_manager.c:834-858 | an unlisted candidate is skipped; a listed one ends the loop at a driver error or a join, or passes on after "Failed to reconnect" |
| WifiManager.TriesExhausted | main/wifi_manager.c:821-859 | past the last candidate the loop ends without a join |
| WifiManager.LeadsFrom | main/wifi_manager.c:809-864 | the model's rounds from any attempt on are a run the method's loop can follow |
| WifiManager.RoundEnds | main/wifi_manager.c:809-860 | after a round the loop either stops with the rounds' end or goes on to the next attempt |
| WifiManager.FindEntryUnique | main/wifi_manager.c:425-430 | a name listed at index `k` and nowhere before is found at `k` |
| WebApplication.SwitchingWords | main/web_application.c:242 | the switch announcement splits into "Switching" and "Wi-Fi…", the second word eight bytes long |
| WebApplication.SwitchingWraps | main/web_application.c:242 | the announcement does not fit on one sixteen-column row: its second word is shown at the start of row 1 |
| WebApplication.FindLed | main/web_application.c:155-160 | the entry found has exactly the command asked for and no earlier entry has it; none is found only when no entry has it |
| WebApplication.TableShapes | main/web_application.c:120-127 | the six commands differ from each other in length or first letter |
| WebApplication.TableFirst | main/web_application.c:120-127 | every entry is the first with its command, so the search never stops early |
| WebApplication.LedOnCommand | main/web_application.c:112-127 | "<colour> led on" lights that LED steadily and leaves the others alone |
| WebApplication.LedOffCommand | main/web_application.c:112-127 | "<colour> led off" switches that LED off and leaves the others alone |
| WebApplication.UnknownLedCommand | main/web_application.c:152-162 | a command makes an LED call exactly when it is one of the six, and NULL makes none |
| WebApplication.ToggleTouchesOneLed | main/web_application.c:152-162 | a toggle command addresses only its own LED, which ends steadily on or off |
| WebApplication.FirstBar | main/web_application.c:228 | the index found holds the first `|`, and the end of the string is returned only when there is none |
| WebApplication.SplitBuffer | main/web_application.c:228-232 | writing a NUL over the `|` of the copy leaves the SSID before it and the password after it as two C strings |
| WebApplication.SplitRoundTrip | main/web_application.c:227-236 | a payload of a non-empty SSID free of `|`, a `|` and any password splits back into the two; the password may hold `|` |
| WebApplication.SplitRejects | main/web_application.c:227-236 | a payload is refused exactly when it is NULL, has no `|`, or starts with one |
| WebApplication.PollMeaning | main/web_application.c:250-254 | a client that is down comes up exactly when a connect event arrives within the polls left of the 60 |
| WebApplication.PollStaysUp | main/web_application.c:251 | a client that is up is not polled at all |
| WebApplication.PollIdle | main/web_application.c:250-254 | with no event to come, a client that is down stays down through the polls |
| WebApplication.StoreRules | main/web_application.c:249-300 | the new credentials are saved exactly when the switch worked with Wi-Fi and MQTT both up; they are removed exactly when the switch failed, Wi-Fi came back and the reason was a wrong password |
| WebApplication.ReportRules | main/web_application.c:249-300 | a switch that worked publishes "new wifi connected" exactly when MQTT is back; a failure with Wi-Fi back publishes the reason's message and shows nothing; a failure without Wi-Fi only shows the failure and lights red with the others off |
| WebApplication.InvalidPayloadChangesNothing | main/web_application.c:236-240 | an invalid payload only publishes "invalid payload": no switch, no store change, no LED or LCD output |
| WebApplication.ReactedSwitched | main/web_application.c:256-260 | a switch that worked with MQTT back publishes, saves the credentials, shows "Wi-Fi switched OK" and lights green with the others off, in that order |
| WebApplication.ReactedReverted | main/web_application.c:267-295 | a failed switch with Wi-Fi back lights yellow when MQTT is back, publishes the reason, and forgets a network whose password was wrong |
| WebApplication.ReactedFailed | main/web_application.c:296-299 | with Wi-Fi not back, the failure is shown and red is lit with the others off |
| WebApplication.PublishAllAppend | main/web_application.c:360-376 | two runs of publishes on one topic are the first run, then the second |
| WebApplication.PublishSnoc | main/web_application.c:371-376 | one more publish on the topic comes after the earlier ones |
| WebApplication.LightAllAppend | main/web_application.c:438-447 | two runs of LED calls are the first run, then the second |
| WebApplication.LightThree | main/web_application.c:439-441 | three LED calls are one after the other |
| WebApplication.LightSnoc | main/web_application.c:438-447 | one more LED call comes after the earlier ones |
| WebApplication.ScanRules | main/web_application.c:171-200 | the scan keeps the Wi-Fi invariant; a failed scan (a NULL context included) or a failed array publishes "[]" and leaves the LCD and LEDs alone; a successful one publishes the JSON when there is one and always ends with "Wi-Fi scan done" |
| WebApplication.PublishOps | main/web_application.c:92-94 | one publish per message on the topic, with QoS 1 and no retain, in order |
| WebApplication.PublishAllLogs | main/web_application.c:92-94 | publishing in order on a connected client logs one publish per message, and nothing else, and keeps the client connected |
| WebApplication.PublishAllFrame | main/web_application.c:92-94 | publishing changes only the MQTT context |
| WebApplication.CredLines | main/web_application.c:371-376 | one line per used slot of the list, in stored order |
| WebApplication.CredLineWhole | main/web_application.c:372-374 | a stored credential fits the 128-byte line, so the line is never cut |
| WebApplication.CredLinesFormat | main/web_application.c:373-374 | each line is `ssid:<ssid> pass:<password>` for the credential in the same slot |
| WebApplication.InfoLinesFit | main/web_application.c:345-358 | the six status lines fit their 64-byte buffers |
| WebApplication.DeviceTestPublishes | main/web_application.c:344-377 | on a connected client the report publishes the six status lines, then exactly one whole credential line per stored network, in stored order |
| WebApplication.ReportedAbove | main/web_application.c:420-428 | every progress report lies in a 5% bucket above that of the last report |
| WebApplication.ReportedRising | main/web_application.c:420-428 | the buckets of the reports rise strictly, so no bucket is reported twice |
| WebApplication.ReportedBuckets | main/web_application.c:414-428 | from the initial -1 the reports rise strictly bucket by bucket and the first is at 5% or more |
| WebApplication.BucketPositive | main/web_application.c:422 | a percentage in a bucket above 0 is at least 5 |
| WebApplication.UnknownSizeReportsNothing | main/web_application.c:418-420 | steps without a known image size report nothing |
| WebApplication.ProgressLoopReports | main/web_application.c:415-433 | the download loop publishes and shows exactly the percentages the report rule picks, in order |
| WebApplication.FlashesEndOff | main/web_application.c:438-447 | the five flashing rounds leave every LED off |
| WebApplication.RoundEndsOff | main/web_application.c:439-446 | one flashing round ends with every LED off |
| WebApplication.OtaOutcome | main/web_application.c:388-455 | the device restarts exactly when the URL is non-empty and the download begins and finishes; a NULL or empty URL only publishes "invalid url" |
| WebApplication.EmptyTextClears | main/web_application.c:140-143 | a NULL text shows the empty message: the screen cleared and the cursor at home |
| WebApplication.WebApp.constructor | main/web_application.c:485 | no managers, nothing initialised |
| WebApplication.WebApp.InitWebApp | main/web_application.c:485-502 | a NULL manager or a zero storage handle is refused with nothing changed; otherwise both managers, the LCD and the storage handle are kept and the module is initialised |
| WebApplication.WebApp.Pub | main/web_application.c:92-94 | one publish with QoS 1 and no retain |
| WebApplication.WebApp.Lights | main/web_application.c:112-117 | one LED driver call |
| WebApplication.WebApp.ShowText | main/web_application.c:142 | one `LCD_show_lines` from row 0 |
| WebApplication.WebApp.SaveCreds | main/web_application.c:258 | the store after adding the credentials |
| WebApplication.WebApp.ForgetCreds | main/web_application.c:285 | the store after removing the SSID |
| WebApplication.WebApp.LcdDisplayText | main/web_application.c:140-143 | the text, or the empty string for NULL, shown after a clear |
| WebApplication.WebApp.ScanWifiNetworks | main/web_application.c:171-200 | the world after the scan handler, as the scan rules give it, keeping the Wi-Fi invariant |
| WebApplication.WebApp.Scan | main/web_application.c:172 | the scan on the shared context, keeping the Wi-Fi invariant |
| WebApplication.WebApp.ReportScan | main/web_application.c:172-199 | the publishing half of the scan handler |
| WebApplication.WebApp.LedsToggleHandler | main/web_application.c:152-162 | the first table entry equal to the command makes its LED call; anything else changes nothing |
| WebApplication.WebApp.ChangeWifiNetworkHandler | main/web_application.c:317-331 | a task starts, with a copy of the payload, exactly when the payload is not NULL and the copies succeed |
| WebApplication.WebApp.FindBar | main/web_application.c:228 | the index of the first `|` in the first `n` characters, or `n` when there is none |
| WebApplication.WebApp.SplitInPlace | main/web_application.c:227-234 | the split of the payload copy is the payload split at its first `|`, refused when there is none or the SSID is empty |
| WebApplication.WebApp.SwitchNetwork | main/web_application.c:245-246 | the switch on the shared context with its result and reason, keeping the Wi-Fi invariant |
| WebApplication.WebApp.PollMqtt | main/web_application.c:250-254 | the client after the polling loop |
| WebApplication.WebApp.ReactSwitched | main/web_application.c:256-260 | publish "new wifi connected", save the credentials, show "Wi-Fi switched OK", light green with the others off |
| WebApplication.WebApp.ReactReverted | main/web_application.c:274-295 | yellow on when MQTT is back, the reason published, a wrong password forgotten |
| WebApplication.WebApp.React | main/web_application.c:249-300 | the outcome rules carried out in the order of the source |
| WebApplication.WebApp.ReactUnswitched | main/web_application.c:266-300 | the outcome rules when the new network is not left connected |
| WebApplication.WebApp.ReactFailed | main/web_application.c:297-298 | the failure shown and red lit with the others off |
| WebApplication.WebApp.RunSwitch | main/web_application.c:245-300 | the switch of a valid payload and its outcome rules, keeping the Wi-Fi invariant |
| WebApplication.WebApp.ChangeWifiNetworkTask | main/web_application.c:218-308 | the world after the task, as the switching rules give it, keeping the Wi-Fi invariant |
| WebApplication.WebApp.SwitchTo | main/web_application.c:242-300 | "Switching Wi-Fi" and the three UTF-8 bytes of the ellipsis shown, green blinking with the others off, then the switch |
| WebApplication.WebApp.DeviceConnectionTest | main/web_application.c:344-377 | the world after the report: the six status lines, then one line per stored network |
| WebApplication.WebApp.PublishCreds | main/web_application.c:371-376 | one publish per stored network, in stored order |
| WebApplication.WebApp.PublishInfo | main/web_application.c:345-365 | the six status publishes, each line formatted into its own buffer |
| WebApplication.WebApp.Publish3 | main/web_application.c:360-365 | three publishes on one topic, in order |
| WebApplication.WebApp.PerformOtaUpdate | main/web_application.c:388-455 | the world after the update and whether the device restarts, as the update model gives them |
| WebApplication.WebApp.Flash | main/web_application.c:438-447 | the five flashing rounds |
| WebApplication.WebApp.FlashOnce | main/web_application.c:439-446 | three LEDs on, then off |
| WebApplication.WebApp.Switch3 | main/web_application.c:439-441 | three LED calls in a row |
| WebApplication.WebApp.OtaUpdateHandler | main/web_application.c:464-467 | "Starting OTA update" shown, then the update |
| MainApp.BringKeeps | main/main.c:130-168 | the steps from the LEDs to loading the credentials keep the storage handle and the stored list |
| MainApp.BootVerdict | main/main.c:111-298 | `init_success` ends true exactly when every step of the start-up succeeds; any failing step makes it false |
| MainApp.BootKeepsRunning | main/main.c:111-298 | the start-up never restarts the device |
| MainApp.BootKeepsStore | main/main.c:111-298 | the start-up never changes the stored credentials |
| MainApp.HealthyBootIsOnline | main/main.c:294-298 | a successful start-up ends with the 3-second pause and "Online" |
| MainApp.EarlyFailureIsDark | main/main.c:119-293 | a failure of one of the first four calls comes before the LEDs are set up, so the red LED call lights nothing and the button interrupt is never attached |
| MainApp.LateFailureLightsRed | main/main.c:289-293 | a later failure leaves red steadily on and green and yellow off |
| MainApp.ReachBranch | main/main.c:111-190 | when every call before the branch succeeds, the start-up is the branch on the stored credentials, then the label |
| MainApp.PreBranchCallsDistinct | main/main.c:119-180 | none of the calls before the branch is one the branch makes |
| MainApp.ApBranch | main/main.c:190-205 | the calls of the access point branch for each outcome of `wfm_start_ap` and `start_webserver` |
| MainApp.MqttBranch | main/main.c:209-267 | the calls of the station branch after a first connection, for each outcome of `mqm_init`, `mqm_start` and `init_web_app` |
| MainApp.NoConnectionBranch | main/main.c:269-284 | the calls of the station branch when the first connection fails |
| MainApp.NoCredentialsStartsAp | main/main.c:190-205 | with no stored network the access point starts with the built-in SSID and password, and the web server starts only when that worked |
| MainApp.NoCredentialsSkipsStation | main/main.c:190-205 | with no stored network neither the station nor MQTT is tried, and the start-up succeeds exactly when the access point and the web server both start |
| MainApp.CredentialsStartMqtt | main/main.c:209-253 | with a stored network and a first connection, `mqm_init` gets the broker address and login, the three callbacks and the six-topic table, and `mqm_start(15000)` follows only when it succeeded |
| MainApp.MqttStepsGuarded | main/main.c:251-267 | `mqm_start` runs exactly when `mqm_init` succeeded, `init_web_app` with the opened handle exactly when both did, and the access point is never started |
| MainApp.FirstConnectFailureReported | main/main.c:269-284 | a failed first connection only shows "no available Wi-Fi found" when the scan found nothing and "Wi-Fi connection error" otherwise; no access point, no MQTT, and the start-up still counts as healthy |
| MainApp.FirstMatch | main/main.c:220-227 | a lookup finds the first entry with the topic |
| MainApp.TopicTableRoutes | main/main.c:220-227 | each of the six incoming topics reaches its own handler |
| MainApp.TopicTableSubscriptions | main/main.c:220-227 | a connection subscribes to the six incoming topics with QoS 1, in table order |
| MainApp.FailedBootIgnoresButtons | main/main.c:302-331 | after a failed start-up a pass only pauses: no flag is acted on, no LED changes, storage is kept, no restart |
| MainApp.FailedBootNeverResets | main/main.c:302-331 | after a failed start-up no run of interrupts and passes ever erases storage or restarts |
| MainApp.ResetComesFirst | main/main.c:305-314 | a raised reset flag wins over the triple press: only it is cleared, red blinks five times with the others off, storage is erased and the device restarts |
| MainApp.TriplePressStartsAp | main/main.c:317-327 | the triple press clears its flag, stops the Wi-Fi driver before the access point starts with the built-in SSID and password, then starts the web server and blinks green; storage is kept and there is no restart |
| MainApp.QuietPass | main/main.c:302-331 | with no flag raised, or after a failed start-up, a pass is only the 200 ms pause |
| MainApp.InterruptOnlyRaises | main/main.c:95-96 | the button interrupt never lowers a flag and touches nothing but the gesture state and the registers |
| MainApp.LoopAppend | main/main.c:302-331 | running the loop over two runs of ticks is running it over the first, then the second |
| MainApp.LongPressErases | main/main.c:111-331 | after a healthy start-up, holding the reset button for five seconds and one pass of the loop erase the stored credentials and restart the device |
| MainApp.App.constructor | main/main.c:85-96 | no storage handle, no interrupt, no flag, nothing called |
| MainApp.App.Record | main/main.c:111-331 | calls recorded one after the other |
| MainApp.App.LedCall | main/main.c:292 | one LED driver call |
| MainApp.App.StartUp | main/main.c:111-298 | the world after the start-up, as the boot model gives it |
| MainApp.App.InitSystem | main/main.c:113-128 | the four checked system calls, stopping at the first failure |
| MainApp.App.BringUp | main/main.c:130-285 | the world from the peripherals to the end of the credentials branch |
| MainApp.App.InitPeripherals | main/main.c:130-163 | the peripherals set up in source order |
| MainApp.App.InitLedsAndLcd | main/main.c:130-149 | LEDs, LCD and the version line |
| MainApp.App.InitButton | main/main.c:151-153 | the interrupt attached and the button configured |
| MainApp.App.InitWifiManager | main/main.c:180-185 | `wfm_init` with the loaded list; its failure shown and the start-up marked failed |
| MainApp.App.StartApMode | main/main.c:190-205 | the world after the access point branch |
| MainApp.App.ConnectSta | main/main.c:206-285 | the world after the station branch |
| MainApp.App.StartMqtt | main/main.c:251-267 | the world after setting up MQTT and the web application |
| MainApp.App.ReportBoot | main/main.c:289-298 | red on after a failure; the pause and "Online" otherwise |
| MainApp.App.Interrupt | main/main.c:152 | the world after one button interrupt |
| MainApp.App.PassOnce | main/main.c:303-330 | the world after one pass of the loop |
| MainApp.App.OnReset | main/main.c:305-314 | the world after the reset branch |
| MainApp.App.OnTriplePress | main/main.c:317-327 | the world after the triple-press branch |
| MainApp.App.MainLoop | main/main.c:302-331 | the world after the interrupts and passes of the ticks given |
| MainApp.App.AppMain | main/main.c:111-332 | the world after `app_main` over the ticks given |

## Left out

- ESP-IDF calls (Wi-Fi driver, netif, event loop, esp-mqtt client, HTTP server, TLS): foreign code. Their results are inputs of the model (a set of failing calls, a queue of wait outcomes, flags such as `allocOk`) and their effects are recorded in order.
- `ESP_ERROR_CHECK` calls are taken to succeed; the abort on failure is not modelled, because it ends the program outside the code modelled here.
- FreeRTOS event-group waits and their timeouts: each wait takes its outcome from the caller, so the timeout values are constants of the model but time does not pass.
- Concurrency: the reconnect task and `change_wifi_network_task` are recorded as spawned and run as ordinary calls; the main loop and the button interrupt take turns, the interrupt running only between passes; the volatile flag sharing is not modelled.
- `LED_indicator_task`, the consumer of the LED queue: its blink timing loop uses delays and `double` intervals. The model keeps the commands queued and reads an LED's state as the latest command addressed to it (`LedsDriver.Latest`).
- The LED queue's capacity of 10 and the 500 ms send timeout: the queue is unbounded, because its consumer is not modelled.
- The scratch `LED_set` struct: each command is built as a fresh value, which is what is queued.
- LcdDriver.Lcd.ShowLines, LcdDriver.Lcd.ShowWords and LcdDriver.Lcd.ShowWord wrap with the corrected guard `row < Rows - 1`, so for a text that wraps past row 1, such as "Wi-Fi reconnection failed" (main/web_application.c:297), they stay on row 1 where the program asks for row 2 and reads past `row_offsets`; the as-written layout is `LcdDriver.LayoutAsWritten` and the discrepancy is a Finding.
- LcdDriver.Lcd.SetCursor requires a row of the display, because `row_offsets` has only two entries.
- C strings are byte sequences: every character of a model string is below 256, and a non-ASCII literal of the source is written as its UTF-8 bytes (the ellipsis of "Switching Wi-Fi…" at main/web_application.c:242 is three bytes). No encoding is otherwise modelled.
- `LcdDriver`: the delays between pin writes and the busy timing of the controller; only the pin levels are recorded.
- `HardwareLayer.Mask`: a pin of 32 or more gives the mask 0, where C's shift is undefined.
- Register reads (`GPIO_INTERRUPT_REG`, `GPIO_LEVEL_REG`) are parameters of the interrupt handler; `xt_ints_on` and the interrupt allocation are not modelled.
- The column of `LCD_show_lines` is an unbounded count; the source's `unsigned short` could wrap only for a single word of 65535 characters or more.
- `init_NVS_memory`'s erase-and-retry of the flash and the blob API: the store is one optional list, and `nvs_flash_erase` empties it.
- `wait_ms`, `wait_us` and `vTaskDelay`: recorded as pauses where the main loop makes them, otherwise left out.
- `esp_restart`: a terminal flag; nothing runs after it.
- Logging (`ESP_LOGx`), `print_status`'s log line, `on_mqtt_message` and `on_wifi_scan_json`: they only log.
- The netif helpers and the MAC and IP address strings in the connection info: driver output that the logic never reads.
- SPIFFS mounting (`init_spiffs`) and the static file GET handlers (index page, CSS, JavaScript): file I/O.
- cJSON (`convert_AP_list_to_JSON` and the scan publish): a library that is not part of this model.
- WebApplication.WebApp.ScanWifiNetworks: whether the JSON array could be built and its text are parameters, because cJSON is not part of this model.
- `perform_ota`'s HTTPS client: each step's outcome and the image sizes are inputs; only the progress buckets and the outcome rules are modelled. The `read * 100` product is taken not to overflow.
- WebApplication.WebApp.DeviceConnectionTest requires the Wi-Fi context to be set, because the source reads through it unchecked; `init_web_app` refuses a NULL context before the handler can run.
- `app_main`: the `mqtt_cfg` fields beyond the broker address and login (retransmit and keep-alive timing, clean session, last will) are kept only as the configuration passed on; the LCD messages are recorded as texts; the loop runs over a finite list of ticks.
- One `allocOk` flag per operation stands for all its allocations.
- WifiManager.Manager.StopAp models `wfm_stop_ap` as written; the corrected stop `WifiModel.StopApCorrected` is the Finding's corrected half and has no caller, as `wfm_stop_ap` has none in the firmware.
- MqttCallbacks.MqttCallbacksHandler.OnMqttStatus models the source as written; the intended filter is `MqttCallbacks.PassedCorrected`, which nothing else in the model calls.

## Findings

| source | as written | input that shows it | evidently intended | confidence | as-written member | corrected member |
|---|---|---|---|---|---|---|
| main/wifi_manager.c:521-522 | `wfm_stop_ap` returns early unless `started`, which only the station-start event sets | a successful `wfm_start_ap`, then `wfm_stop_ap` | stop the access point whenever the mode is AP | not executed | WifiModel.StopApAfterStartApIsNoOp | WifiModel.StopApCorrectedAfterStartAp |
| main/lcd_driver.c:311-314 | the row advances while `row < LCD_ROWS`, so it reaches 2 and `row_offsets[2]` is read | "Wi-Fi reconnection failed" (main/web_application.c:297) shown from row 0 | stop at the last row of the display | not executed | LcdDriver.AsWrittenLeavesScreen | LcdDriver.CorrectedStaysOnScreen |
| main/mqtt_callbacks.c:57-81 | `prev_status` is never updated and the test returns when the status differs from it, so only `MQM_NONE` gets through | the reports connecting, connected, error | show a status when it differs from the previous one, then remember it | not executed | MqttCallbacks.AsWrittenHidesTransitions | MqttCallbacks.CorrectedShowsTransitions |
