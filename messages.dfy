/** The greeting shown under the countdown: one message per day of the week
    (0 = Sunday … 6 = Shabbos) and per part of the day. */
module Messages {

  /** The four keys "morning", "afternoon", "evening" and "night" of a day's
      messages. */
  datatype TimeOfDay = Morning | Afternoon | Evening | Night

  /** The part of the day for an hour: [6, 12) morning, [12, 17) afternoon,
      [17, 21) evening, and every other value night. The hour is a JavaScript
      number, so fractional and out-of-range hours are covered. */
  function TimeOfDayOf(currentHour: real): (timeOfDay: TimeOfDay)
    ensures timeOfDay == Morning <==> 6.0 <= currentHour < 12.0
    ensures timeOfDay == Afternoon <==> 12.0 <= currentHour < 17.0
    ensures timeOfDay == Evening <==> 17.0 <= currentHour < 21.0
    ensures timeOfDay == Night <==> currentHour < 6.0 || currentHour >= 21.0
  {
    if currentHour >= 6.0 && currentHour < 12.0 then Morning
    else if currentHour >= 12.0 && currentHour < 17.0 then Afternoon
    else if currentHour >= 17.0 && currentHour < 21.0 then Evening
    else Night
  }

  /** The messages of one day, one per part of the day. */
  datatype DayMessages = DayMessages(morning: string, afternoon: string, evening: string, night: string)
  {
    /** dayMessages[timeOfDay] */
    function Get(timeOfDay: TimeOfDay): string {
      match timeOfDay
      case Morning => morning
      case Afternoon => afternoon
      case Evening => evening
      case Night => night
    }

    /** Every message is non-empty and differs from the other three of its day. */
    predicate WellFormed() {
      && morning != "" && afternoon != "" && evening != "" && night != ""
      && morning != afternoon && morning != evening && morning != night
      && afternoon != evening && afternoon != night && evening != night
    }
  }

  /** The message table, indexed by day of the week; it has no entry outside 0..6. */
  const MessageTable: seq<DayMessages> := [
    // 0: Sunday
    DayMessages(
      "Plenty of time to daven Shachris! Start your week right! 🌅",
      "Good afternoon! Still time to daven before shkia 🙏",
      "Getting closer! Make time for davening 🕐",
      "Late night! Daven Shachris soon ⏰"),
    // 1: Monday
    DayMessages(
      "Start your Monday with davening! You have time 🌄",
      "Afternoon reminder: Daven before shkia today 📿",
      "Don't wait! Shkia is getting closer 🕒",
      "Late night! Time to daven Shachris ⏰"),
    // 2: Tuesday
    DayMessages(
      "Beautiful Tuesday morning! Time for Shachris 🌞",
      "Afternoon check-in: Remember to daven! 🙏",
      "Time is short! Get to davening 🕐",
      "Late night! Daven Shachris soon ⏰"),
    // 3: Wednesday
    DayMessages(
      "Midweek blessing! Plenty of time to daven 🌅",
      "Afternoon davening reminder 📿",
      "Getting late! Daven soon 🕒",
      "Late night! Time for Shachris ⏰"),
    // 4: Thursday
    DayMessages(
      "Thursday morning! Start with davening 🌄",
      "Good time to daven Shachris 🙏",
      "Time running out! Daven soon 🕐",
      "Late night! Daven Shachris soon ⏰"),
    // 5: Friday, Erev Shabbos
    DayMessages(
      "Erev Shabbos! Daven early, prepare for Shabbos 🕯️",
      "Friday afternoon! Daven before Shabbos prep 📿",
      "Erev Shabbos rush! Daven quickly! 🕒",
      "Late night! Late Erev Shabbos! Prepare for Shabbos 🕯️"),
    // 6: Shabbos
    DayMessages(
      "Shabbos Shalom! Enjoy your day of rest 🕊️",
      "Peaceful Shabbos afternoon 🌟",
      "Shabbos winding down... 🌅",
      "Shabbos night... ✨")
  ]

  /** The table has exactly the seven days 0..6, and each day is well formed. */
  lemma MessageTableShape()
    ensures |MessageTable| == 7
    ensures forall d :: 0 <= d < 7 ==> MessageTable[d].WellFormed()
  {
  }

  /** getDynamicMessage: the message for an hour of a day of the week. */
  function GetDynamicMessage(currentHour: real, dayOfWeek: int): (message: string)
    requires 0 <= dayOfWeek <= 6
    ensures message != ""
    ensures 6.0 <= currentHour < 12.0 ==> message == MessageTable[dayOfWeek].morning
    ensures 12.0 <= currentHour < 17.0 ==> message == MessageTable[dayOfWeek].afternoon
    ensures 17.0 <= currentHour < 21.0 ==> message == MessageTable[dayOfWeek].evening
    ensures currentHour < 6.0 || currentHour >= 21.0 ==> message == MessageTable[dayOfWeek].night
  {
    MessageTableShape();
    var dayMessages := MessageTable[dayOfWeek];
    var timeOfDay := TimeOfDayOf(currentHour);
    dayMessages.Get(timeOfDay)
  }

  /** Two hours of the same day give the same message exactly when they fall
      in the same part of the day. */
  lemma SameMessageIffSamePart(h1: real, h2: real, dayOfWeek: int)
    requires 0 <= dayOfWeek <= 6
    ensures GetDynamicMessage(h1, dayOfWeek) == GetDynamicMessage(h2, dayOfWeek)
        <==> TimeOfDayOf(h1) == TimeOfDayOf(h2)
  {
  }
}
