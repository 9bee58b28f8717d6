/** The structured resume record both analyzers produce and the enhanced
    chatbot engine reads back (the `structured_resume_data.json` file).
    A missing dictionary key is `None`; a missing list is empty. */
module Resume {
  import opened Wrappers

  datatype Personal = Personal(name: Option<string>, role: Option<string>, location: Option<string>)

  datatype Contact = Contact(phone: Option<string>, email: Option<string>)

  datatype Education = Education(degree: Option<string>, university: Option<string>, years: Option<string>)

  datatype Skills = Skills(technical: seq<string>, tools: seq<string>, soft: seq<string>)

  /** One experience entry (its `type` key is `kind`). The simple analyzer
      fills `highlights`, the advanced one fills `achievements`. */
  datatype Experience = Experience(kind: Option<string>, description: Option<string>, highlights: seq<string>, achievements: seq<string>)

  datatype Project = Project(
    name: Option<string>,
    description: Option<string>,
    technologies: seq<string>,
    achievement: Option<string>,
    features: seq<string>)

  datatype ResumeData = ResumeData(
    personal: Personal,
    contact: Contact,
    education: Education,
    skills: Skills,
    experience: seq<Experience>,
    projects: seq<Project>,
    certifications: seq<string>,
    achievements: seq<string>)
}
