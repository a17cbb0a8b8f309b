/** The names of the control fields of `csrc/codec_dict.h`. */
module FieldNames {
  datatype Name =
    | AirDistribution | BrightnessLEight | BrightnessLFive | BrightnessLFour | BrightnessLNine
    | BrightnessLOne | BrightnessLOneFive | BrightnessLOneFour | BrightnessLOneOne | BrightnessLOneSix
    | BrightnessLOneThree | BrightnessLOneTwo | BrightnessLOneZero | BrightnessLSeven | BrightnessLSix
    | BrightnessLThree | BrightnessLTwo | Dish | DishStop | DisplayRefresh | Down | EnergyModeSet | FanSpeed
    | HeatingLevel | InteriorLight | Level | LightValue | Mode | Movement | NightTimerHourOff
    | NightTimerHourOn | NightTimerSet | NormalOperationRequest | OperationMode | OperationModeAirHeater
    | OperationModeCombined | OutsideLight | PermanentOperationConfirmation | PermanentOperationRequest
    | ProfileNumber | RunningTime | SafetyCounter | SatelliteSelection | State | StateAir | StateWater
    | System | Temperature | TemperatureAir | TemperatureWater | TimerCancel | TimerHour | TimerMin
    | TimerStart | Timestamp | Up | UsbCharger | Wlan
}
