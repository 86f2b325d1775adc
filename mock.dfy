/**
 * The default data the planner starts from: seven time slots, the six
 * teaching days, eight subjects, a full week's timetable and a syllabus for
 * every subject. The storage layer falls back to these when nothing is saved.
 */
module Mock {
  import opened Js
  import opened Planner

  const TimeSlots: Slots := [
    "9:00 - 10:00",
    "10:00 - 11:00",
    "11:15 - 12:15",
    "12:15 - 1:15",
    "2:15 - 3:15",
    "3:15 - 4:15",
    "4:30 - 5:30"
  ]

  const Days: seq<string> := ["Monday", "Tuesday", "Wednesday", "Thursday", "Friday", "Saturday"]

  const Subjects: seq<string> := [
    "Mathematics",
    "Physics",
    "Chemistry",
    "Computer Science",
    "English Literature",
    "History",
    "Economics",
    "Biology"
  ]

  const DefaultTimetable: Timetable := map[
    "Monday" := map[
      "9:00 - 10:00" := "Mathematics",
      "10:00 - 11:00" := "Physics",
      "11:15 - 12:15" := "Chemistry",
      "12:15 - 1:15" := "Lunch Break",
      "2:15 - 3:15" := "Computer Science",
      "3:15 - 4:15" := "English Literature",
      "4:30 - 5:30" := "Free Period"
    ],
    "Tuesday" := map[
      "9:00 - 10:00" := "Physics",
      "10:00 - 11:00" := "Mathematics",
      "11:15 - 12:15" := "History",
      "12:15 - 1:15" := "Lunch Break",
      "2:15 - 3:15" := "Economics",
      "3:15 - 4:15" := "Biology",
      "4:30 - 5:30" := "Computer Science"
    ],
    "Wednesday" := map[
      "9:00 - 10:00" := "Chemistry",
      "10:00 - 11:00" := "English Literature",
      "11:15 - 12:15" := "Mathematics",
      "12:15 - 1:15" := "Lunch Break",
      "2:15 - 3:15" := "Physics",
      "3:15 - 4:15" := "History",
      "4:30 - 5:30" := "Free Period"
    ],
    "Thursday" := map[
      "9:00 - 10:00" := "Economics",
      "10:00 - 11:00" := "Biology",
      "11:15 - 12:15" := "Computer Science",
      "12:15 - 1:15" := "Lunch Break",
      "2:15 - 3:15" := "Mathematics",
      "3:15 - 4:15" := "Chemistry",
      "4:30 - 5:30" := "Physics"
    ],
    "Friday" := map[
      "9:00 - 10:00" := "English Literature",
      "10:00 - 11:00" := "History",
      "11:15 - 12:15" := "Economics",
      "12:15 - 1:15" := "Lunch Break",
      "2:15 - 3:15" := "Biology",
      "3:15 - 4:15" := "Mathematics",
      "4:30 - 5:30" := "Computer Science"
    ],
    "Saturday" := map[
      "9:00 - 10:00" := "Mathematics",
      "10:00 - 11:00" := "Physics",
      "11:15 - 12:15" := "Chemistry",
      "12:15 - 1:15" := "Lunch Break",
      "2:15 - 3:15" := "Free Period",
      "3:15 - 4:15" := "Free Period",
      "4:30 - 5:30" := "Free Period"
    ]
  ]

  const DefaultSyllabus: Syllabus := map[
    "Mathematics" := [
      "Calculus - Limits, Derivatives, and Integrals",
      "Linear Algebra - Matrices, Vectors, Eigenvalues",
      "Statistics - Probability Distributions, Hypothesis Testing",
      "Discrete Mathematics - Graph Theory, Combinatorics",
      "Differential Equations - First and Second Order",
      "Number Theory - Prime Numbers, Modular Arithmetic"
    ],
    "Physics" := [
      "Mechanics - Kinematics, Dynamics, Work and Energy",
      "Thermodynamics - Laws of Thermodynamics, Heat Engines",
      "Electromagnetism - Electric Fields, Magnetic Fields, Maxwell's Equations",
      "Quantum Mechanics - Wave-Particle Duality, Schr\U{F6}dinger Equation",
      "Optics - Reflection, Refraction, Interference, Diffraction",
      "Modern Physics - Relativity, Atomic Structure, Nuclear Physics"
    ],
    "Chemistry" := [
      "Organic Chemistry - Hydrocarbons, Functional Groups, Reactions",
      "Inorganic Chemistry - Periodic Table, Chemical Bonding, Coordination Compounds",
      "Physical Chemistry - Chemical Kinetics, Thermodynamics, Equilibrium",
      "Analytical Chemistry - Qualitative and Quantitative Analysis",
      "Biochemistry - Proteins, Carbohydrates, Lipids, Nucleic Acids",
      "Environmental Chemistry - Pollution, Green Chemistry"
    ],
    "Computer Science" := [
      "Data Structures - Arrays, Linked Lists, Trees, Graphs",
      "Algorithms - Sorting, Searching, Dynamic Programming",
      "Programming Languages - Java, Python, C++, JavaScript",
      "Database Systems - SQL, NoSQL, Database Design",
      "Computer Networks - TCP/IP, HTTP, Network Security",
      "Software Engineering - SDLC, Design Patterns, Testing",
      "Operating Systems - Process Management, Memory Management"
    ],
    "English Literature" := [
      "Shakespeare - Hamlet, Romeo and Juliet, Macbeth",
      "Victorian Literature - Charles Dickens, Charlotte Bront\U{EB}",
      "Modern Poetry - T.S. Eliot, Robert Frost, Maya Angelou",
      "American Literature - Mark Twain, F. Scott Fitzgerald",
      "Literary Criticism - Formalism, Structuralism, Post-colonialism",
      "Creative Writing - Short Stories, Poetry, Essays"
    ],
    "History" := [
      "Ancient Civilizations - Egypt, Greece, Rome, India, China",
      "Medieval History - Feudalism, Crusades, Islamic Golden Age",
      "Renaissance and Reformation - Humanism, Protestant Reformation",
      "Modern History - Industrial Revolution, World Wars",
      "Contemporary History - Cold War, Decolonization, Globalization",
      "Historical Methodology - Primary Sources, Historiography"
    ],
    "Economics" := [
      "Microeconomics - Supply and Demand, Market Structures, Consumer Theory",
      "Macroeconomics - GDP, Inflation, Unemployment, Fiscal Policy",
      "International Economics - International Trade, Exchange Rates",
      "Development Economics - Economic Growth, Poverty, Inequality",
      "Financial Economics - Banking, Stock Markets, Investment",
      "Economic History - Great Depression, Economic Theories"
    ],
    "Biology" := [
      "Cell Biology - Cell Structure, Cell Division, Cellular Respiration",
      "Genetics - DNA, RNA, Inheritance, Genetic Engineering",
      "Evolution - Natural Selection, Speciation, Phylogeny",
      "Ecology - Ecosystems, Food Webs, Conservation Biology",
      "Human Biology - Anatomy, Physiology, Disease",
      "Molecular Biology - Protein Synthesis, Gene Expression",
      "Biotechnology - Cloning, GMOs, Bioinformatics"
    ]
  ]

  /** The default days are the week from Monday to Saturday, in order: no Sunday column. */
  lemma DaysAreMondayToSaturday()
    ensures Days == WeekDays[1..]
    ensures "Sunday" !in Days
  {
  }

  /** Seven distinct default slot labels. */
  lemma TimeSlotsDistinct()
    ensures |TimeSlots| == 7
    ensures forall i, j :: 0 <= i < j < |TimeSlots| ==> TimeSlots[i] != TimeSlots[j]
  {
  }

  /** The default timetable has a row for every default day and a cell for every default slot. */
  lemma TimetableCoversGrid()
    ensures DefaultTimetable.Keys == set d | d in Days
    ensures forall d :: d in DefaultTimetable ==> DefaultTimetable[d].Keys == set s | s in TimeSlots
  {
  }

  /** Every default cell holds a default subject or a sentinel. */
  lemma TimetableCellsKnown()
    ensures forall d, s :: d in DefaultTimetable && s in DefaultTimetable[d] ==>
              DefaultTimetable[d][s] in Subjects || IsSentinel(DefaultTimetable[d][s])
  {
  }

  /** The 12:15 slot is the lunch break on every default day. */
  lemma LunchEveryDay()
    ensures forall d :: d in Days ==> Lookup(DefaultTimetable, d, "12:15 - 1:15") == Some(LunchBreak)
  {
  }

  /** The default syllabus has exactly the default subjects, each with topics. */
  lemma SyllabusCoversSubjects()
    ensures DefaultSyllabus.Keys == set s | s in Subjects
    ensures forall s :: s in DefaultSyllabus ==> |DefaultSyllabus[s]| > 0
  {
  }
}
