/** Visitor profiles (`lib/user-model.ts`): the preference record, the user
    record kept in browser storage, and the zodiac and MBTI option tables. */
module UserModel {
  import opened Wrappers
  import opened Strings

  /** What a visitor told the guide: period of interest, zodiac sign, MBTI
      type and planned visit length in minutes. */
  datatype Preference = Preference(
    visitPeriod: string,
    zodiacSign: string,
    mbtiType: string,
    visitDuration: int)

  /** A stored profile. `visitSummary` is optional; timestamps are
      milliseconds. */
  datatype User = User(
    id: string,
    nickname: string,
    preferences: Preference,
    selectedArtifacts: seq<string>,
    favoriteArtifacts: seq<string>,
    visitSummary: Option<string>,
    createdAt: int,
    updatedAt: int)

  /** One entry of a selector: machine id and display label. */
  datatype Choice = Choice(id: string, name: string)

  const ZodiacSigns: seq<Choice> := [
    Choice("rat", "鼠"), Choice("ox", "牛"), Choice("tiger", "虎"),
    Choice("rabbit", "兔"), Choice("dragon", "龙"), Choice("snake", "蛇"),
    Choice("horse", "马"), Choice("goat", "羊"), Choice("monkey", "猴"),
    Choice("rooster", "鸡"), Choice("dog", "狗"), Choice("pig", "猪")
  ]

  const MbtiTypes: seq<Choice> := [
    Choice("INTJ", "INTJ - 建筑师"), Choice("INTP", "INTP - 逻辑学家"),
    Choice("ENTJ", "ENTJ - 指挥官"), Choice("ENTP", "ENTP - 辩论家"),
    Choice("INFJ", "INFJ - 提倡者"), Choice("INFP", "INFP - 调停者"),
    Choice("ENFJ", "ENFJ - 主人公"), Choice("ENFP", "ENFP - 活动家"),
    Choice("ISTJ", "ISTJ - 物流师"), Choice("ISFJ", "ISFJ - 守卫者"),
    Choice("ESTJ", "ESTJ - 总经理"), Choice("ESFJ", "ESFJ - 执政官"),
    Choice("ISTP", "ISTP - 鉴赏家"), Choice("ISFP", "ISFP - 探险家"),
    Choice("ESTP", "ESTP - 企业家"), Choice("ESFP", "ESFP - 表演者")
  ]

  /** Twelve signs, rat first and pig last, no id repeated. */
  lemma ZodiacSignsShape()
    ensures |ZodiacSigns| == 12
    ensures ZodiacSigns[0].id == "rat" && ZodiacSigns[11].id == "pig"
    ensures forall i, j :: 0 <= i < j < 12 ==> ZodiacSigns[i].id != ZodiacSigns[j].id
  {
  }

  /** Sixteen types with distinct ids. */
  lemma MbtiTypesShape()
    ensures |MbtiTypes| == 16
    ensures forall i, j :: 0 <= i < j < 16 ==> MbtiTypes[i].id != MbtiTypes[j].id
  {
  }

  /** Each label is the id, " - ", then a nickname. */
  lemma MbtiLabels()
    ensures forall i :: 0 <= i < |MbtiTypes| ==> StartsWith(MbtiTypes[i].name, MbtiTypes[i].id + " - ")
  {
  }
}
