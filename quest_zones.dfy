/** The shipped quest database of `quest_data.py`: eight zones covering
    the day, with their missions. Kept in a module of its own so that the
    large literal is only in scope where a proof needs it. */
module QuestZones {
  import opened QuestData

  /** The shipped zone table, in list order. */
  const ZONES: seq<Zone> := [
    Zone(
      "wachturm", "Der Wachturm", "🏰", "Aufwachen, Struktur", "Skill Quest",
      [HourRange(6, 9)],
      Rgb(0.95, 0.95, 0.85),
      [
        Mission("wt_01", "Rüstung anlegen", "10 Kniebeugen.", "ZIEL: Plane 2 Wege, dich morgens fertig zu machen.", "✅ Haken", 15, 1),
        Mission("wt_02", "Fokus-Reset", "30s auf einem Bein stehen.", "ZIEL: Finde 2 Strategien für einen guten Start.", "✅ Notiz", 20, 2),
        Mission("wt_03", "Zahn-Monster", "2 Min Zähne putzen + 10 Hampelmänner.", "ZIEL: Besiege die Bakterien.", "✅ Sauberes Lächeln", 20, 1)
      ]),
    Zone(
      "wilder_pfad", "Wilder Pfad", "🌲", "Weg, Draußen, Erkunden", "Exploration",
      [HourRange(9, 12)],
      Rgb(0.85, 0.95, 0.85),
      [
        Mission("wp_01", "Musterjäger", "Finde 3 rote Dinge und berühre sie.", "ZIEL: Zeichne ein Muster, das du siehst.", "✅ Skizze", 25, 2),
        Mission("wp_02", "Spurenleser", "Gehe 20 Schritte rückwärts.", "ZIEL: Finde einen Weg von A nach B.", "✅ Karte zeichnen", 30, 3)
      ]),
    Zone(
      "taverne", "Die Taverne", "🍲", "Essen, Energie tanken", "Energy Quest",
      [HourRange(12, 13)],
      Rgb(1.0, 0.9, 0.8),
      [
        Mission("tv_01", "Energie-Scan", "10x Kauen pro Bissen.", "ZIEL: Errate 3 Zutaten im Essen.", "✅ Liste", 20, 1),
        Mission("tv_02", "Wasser-Kraft", "Trinke ein Glas Wasser.", "ZIEL: Fühle, wie die Energie zurückkommt.", "✅ Check", 15, 1)
      ]),
    Zone(
      "werkstatt", "Die Werkstatt", "🔨", "Bauen, Kreativität", "Build Quest",
      [HourRange(13, 15)],
      Rgb(0.9, 0.9, 1.0),
      [
        Mission("ws_01", "Brückenbauer", "20 Armkreise.", "ZIEL: Baue eine Brücke aus Dingen im Raum.", "✅ Foto/Skizze", 30, 3),
        Mission("ws_02", "Turm-Ingenieur", "10 Liegestütze an der Wand.", "ZIEL: Baue den höchsten Turm.", "✅ Höhe messen", 35, 4)
      ]),
    Zone(
      "arena", "Die Arena", "⚔️", "Sport, Action", "Action Quest",
      [HourRange(15, 17)],
      Rgb(1.0, 0.85, 0.85),
      [
        Mission("ar_01", "Schatten-Boxen", "30s Boxen in die Luft.", "ZIEL: Sei schneller als dein Schatten.", "✅ Puls fühlen", 35, 3),
        Mission("ar_02", "Lava-Boden", "Berühre 1 Min nicht den Boden.", "ZIEL: Finde einen sicheren Weg.", "✅ Geschafft", 40, 4)
      ]),
    Zone(
      "ratssaal", "Der Ratssaal", "🤝", "Sozial, Familie, Helfen", "Social Quest",
      [HourRange(17, 19)],
      Rgb(0.95, 0.85, 0.95),
      [
        Mission("rs_01", "Der Bote", "Überbringe eine Nachricht flüsternd.", "ZIEL: Mache jemanden glücklich.", "✅ Lächeln erhalten", 45, 4),
        Mission("rs_02", "Tisch-Ritter", "Decke den Tisch in unter 2 Min.", "ZIEL: Helfen ist Ehrensache.", "✅ Alles am Platz", 40, 3)
      ]),
    Zone(
      "quellen", "Die Quellen", "🛁", "Bad, Hygiene", "Water Quest",
      [HourRange(19, 21)],
      Rgb(0.8, 0.95, 1.0),
      [
        Mission("qq_01", "Schaum-Krone", "Wasche dein Gesicht.", "ZIEL: Werde sauber für die Nacht.", "✅ Spiegel-Check", 25, 2),
        Mission("qq_02", "Zahn-Schutz", "3 Min Putzen.", "ZIEL: Keine Chance für Karius.", "✅ Sauber", 25, 2)
      ]),
    Zone(
      "trauminsel", "Traum-Insel", "🌙", "Schlaf, Ruhe", "Silent Quest",
      [HourRange(21, 24), HourRange(0, 6)],
      Rgb(0.15, 0.15, 0.35),
      [
        Mission("ti_01", "Traum-Fänger", "Augen zu, tief atmen.", "ZIEL: Erinnere dich an das Beste heute.", "✅ Gedanke", 20, 1),
        Mission("ti_02", "Stille Wacht", "Liege 1 Min ganz still.", "ZIEL: Lausche in die Nacht.", "✅ Ruhe", 20, 1)
      ])
  ]
}
