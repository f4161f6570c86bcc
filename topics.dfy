/**
 * The MQTT topic names of main/web_application.h: the topics the device
 * subscribes to (`In`) and the ones it publishes on (`Out`).
 */
module Topics {
  import Util

  const OutNewWifiConnectStatus: string := "wifi_connection_status"
  const InConnectNewWifi: Util.CString := "connect_new_wifi"
  const InScanWifiNets: Util.CString := "scan_wifi_nets"
  const OutScanWifiResult: string := "scan_wifi_result"
  const InLcdDisplay: Util.CString := "LCD_display"
  const InOtaUpdate: Util.CString := "OTA_update"
  const OutOtaUpdate: string := "OTA_update_progress"
  const InDeviceConnection: Util.CString := "Get_device_connection_status"
  const OutDeviceConnection: string := "device_connection_status"
  const OutWifiCredList: string := "wifi_cred_list"
  const InLedsToggle: Util.CString := "leds_toggle"
}
